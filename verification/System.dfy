/**
 * The three services together. Each keeps its own tables; all write to one outbox table, here by the service that wrote
 * a row. Relays pick up any service's rows not yet marked as sent, send them and mark them; the network delivers a
 * message that is on it any number of times, in any order, until it is lost or its consumer has moved past it.
 */
module System {
  import opened Common
  import opened Events
  import opened Ledger
  import I = Inventory
  import O = OrderSaga
  import P = Payment

  datatype Service = ORDERS | INVENTORY | PAYMENTS

  /** An outbox row, by its position among those its service has written. */
  datatype RowId = RowId(service: Service, index: nat)

  /** A row in the hands of a relay pass, before or after it was sent. Passes may overlap. */
  datatype Hold = Hold(row: RowId, sent: bool)

  /** marked: rows whose sentAt is set; held: what passes in progress have picked up; net: the messages on Kafka. */
  datatype Sys = Sys(
    ord: O.OrderDb, inv: I.InventoryDb, pay: P.PaymentDb, marked: set<RowId>, held: multiset<Hold>, net: set<Event>)

  const INIT := Sys(O.EMPTY, I.EMPTY, P.EMPTY, {}, multiset{}, {})

  datatype Step =
    | Client(op: O.OrderOp)
    | Admin(change: I.InventoryOp)
    | RefundCommand(order: OrderId, throws: bool)
    // a relay pass selects a row, sends it, marks it, or gives up on it
    | Pick(row: RowId)
    | Send(row: RowId)
    | Mark(row: RowId)
    | Abandon(hold: Hold)
    // delivery, and the end of delivery
    | ToOrder(event: Event)
    | ToInventory(event: Event)
    | ToPayment(event: Event, result: P.ChargeResult)
    | Drop(event: Event)

  // ---- The consumers: which handler a message is dispatched to ----

  function OrderDispatch(e: Event): Option<O.OrderOp> {
    match e
    case InventoryReserved(o, _) => Some(O.OnInventoryReserved(o))
    case ReservationFailed(o, _, _, _) => // the payload has no reason
      Some(O.OnInventoryFailed(o, "insufficient_stock"))
    case PaymentCompleted(o, _, _, _) => Some(O.OnPaymentCompleted(o))
    case PaymentFailed(o, _, _, reason) =>
      Some(O.OnPaymentFailed(o, if reason.Some? then reason.value else "payment_declined"))
    case _ => None
  }

  function InventoryDispatch(e: Event): Option<I.InventoryOp> {
    match e
    case InventoryReserve(o, items) => Some(I.Reserve(o, items))
    case InventoryRelease(o, items) => Some(I.Release(o, items))
    case _ => None
  }

  function PaymentDispatch(e: Event, result: P.ChargeResult): Option<P.PaymentOp> {
    match e
    case PaymentCharge(o, user, amount) => Some(P.Charge(o, user, amount, result))
    case PaymentRefund(o) => Some(P.Refund(o, result.Throws?))
    case _ => None
  }

  // ---- Steps and runs ----

  /** The message of some outbox row. */
  predicate Emitted(s: Sys, e: Event) {
    e in s.ord.outbox || e in s.inv.outbox || e in s.pay.outbox
  }

  function Outbox(s: Sys, service: Service): seq<Event> {
    match service
    case ORDERS => s.ord.outbox
    case INVENTORY => s.inv.outbox
    case PAYMENTS => s.pay.outbox
  }

  predicate RowExists(s: Sys, row: RowId) {
    row.index < |Outbox(s, row.service)|
  }

  function EventOf(s: Sys, row: RowId): Event
    requires RowExists(s, row)
  {
    Outbox(s, row.service)[row.index]
  }

  /** A pass selects only unmarked rows, marks only what it has sent, and only a message on the network is delivered. */
  predicate Enabled(s: Sys, step: Step) {
    match step
    case Client(op) => op.Create? || op.Cancel? || op.Timeout?
    case Admin(op) => op.Upsert? || op.Adjust?
    case RefundCommand(_, _) => true
    case Pick(row) => RowExists(s, row) && row !in s.marked
    case Send(row) => RowExists(s, row) && Hold(row, false) in s.held
    case Mark(row) => Hold(row, true) in s.held
    case Abandon(hold) => hold in s.held
    case ToOrder(e) => e in s.net
    case ToInventory(e) => e in s.net
    case ToPayment(e, _) => e in s.net
    case Drop(e) => e in s.net
  }

  ghost function Next(s: Sys, step: Step): Sys {
    match step
    case Client(op) => s.(ord := O.OrderNext(s.ord, op))
    case Admin(op) => s.(inv := I.InventoryNext(s.inv, op))
    case RefundCommand(o, throws) => s.(pay := P.RefundNext(s.pay, o, throws))
    case Pick(row) => s.(held := s.held + multiset{Hold(row, false)})
    case Send(row) =>
      if !RowExists(s, row) then s
      else
        s.(held := s.held - multiset{Hold(row, false)} + multiset{Hold(row, true)}, net := s.net + {EventOf(s, row)})
    case Mark(row) => s.(held := s.held - multiset{Hold(row, true)}, marked := s.marked + {row})
    case Abandon(hold) => s.(held := s.held - multiset{hold})
    case Drop(e) => s.(net := s.net - {e})
    case ToOrder(e) =>
      var op := OrderDispatch(e);
      if op.None? then s else s.(ord := O.OrderNext(s.ord, op.value))
    case ToInventory(e) =>
      var op := InventoryDispatch(e);
      if op.None? then s else s.(inv := I.InventoryNext(s.inv, op.value))
    case ToPayment(e, result) =>
      var op := PaymentDispatch(e, result);
      if op.None? then s else s.(pay := P.PaymentNext(s.pay, op.value))
  }

  /** What a step does to the payment tables. */
  function PaymentOpOf(step: Step): Option<P.PaymentOp> {
    match step
    case RefundCommand(o, throws) => Some(P.Refund(o, throws))
    case ToPayment(e, result) => PaymentDispatch(e, result)
    case _ => None
  }

  lemma {:induction false} PaymentPart(s: Sys, step: Step)
    ensures Next(s, step).pay
         == if PaymentOpOf(step).Some? then P.PaymentNext(s.pay, PaymentOpOf(step).value) else s.pay
  {
  }

  /** What a step does to the order tables. */
  function OrderOpOf(step: Step): Option<O.OrderOp> {
    match step
    case Client(op) => Some(op)
    case ToOrder(e) => OrderDispatch(e)
    case _ => None
  }

  lemma {:induction false} OrderPart(s: Sys, step: Step)
    ensures Next(s, step).ord == if OrderOpOf(step).Some? then O.OrderNext(s.ord, OrderOpOf(step).value) else s.ord
  {
  }

  /** What a step does to the inventory tables. */
  function InventoryOpOf(step: Step): Option<I.InventoryOp> {
    match step
    case Admin(op) => Some(op)
    case ToInventory(e) => InventoryDispatch(e)
    case _ => None
  }

  lemma {:induction false} InventoryPart(s: Sys, step: Step)
    ensures Next(s, step).inv
         == if InventoryOpOf(step).Some? then I.InventoryNext(s.inv, InventoryOpOf(step).value) else s.inv
  {
  }

  ghost function Run(steps: seq<Step>): Sys {
    if steps == [] then INIT
    else Next(Run(steps[..|steps| - 1]), steps[|steps| - 1])
  }

  ghost predicate ValidRun(steps: seq<Step>) {
    steps == [] || (ValidRun(steps[..|steps| - 1]) && Enabled(Run(steps[..|steps| - 1]), steps[|steps| - 1]))
  }

  // ---- What the messages and the tables vouch for ----

  function ItemsOf(s: Sys, o: OrderId): seq<Item>
    requires o in s.ord.orders
  {
    Items(s.ord.orders[o].lines)
  }

  /** The ledger has RESERVE rows for exactly the items of order o. */
  predicate HasReserved(s: Sys, o: OrderId) {
    o in s.ord.orders && RowsOf(s.inv.ledger, RESERVE, o) == ReserveRows(o, ItemsOf(s, o))
  }

  predicate Captured(s: Sys, o: OrderId) {
    o in s.pay.payments && s.pay.payments[o].status in {P.COMPLETED, P.REFUNDED}
  }

  predicate Refused(s: Sys, o: OrderId) {
    o in s.pay.payments && s.pay.payments[o].status == P.FAILED
  }

  predicate Compensating(s: Sys, o: OrderId) {
    o in s.ord.sagas && s.ord.sagas[o].step == O.COMPENSATING
  }

  /** What the existence of a message implies about the tables of all services. */
  predicate EventOk(s: Sys, e: Event) {
    match e
    case InventoryReserve(o, items) => o in s.ord.orders && items == ItemsOf(s, o)
    case InventoryReserved(o, _) => HasReserved(s, o)
    case PaymentCharge(o, user, amount) =>
      HasReserved(s, o) && user == s.ord.orders[o].user && amount == s.ord.orders[o].total
    case PaymentCompleted(o, _, _, _) => Captured(s, o)
    case PaymentFailed(o, _, _, _) => Refused(s, o)
    case InventoryRelease(o, items) =>
      HasReserved(s, o) && items == ItemsOf(s, o) && Refused(s, o) && Compensating(s, o)
    case _ => true
  }

  predicate PaymentOk(s: Sys, o: OrderId)
    requires o in s.pay.payments
  {
    var payment := s.pay.payments[o];
    HasReserved(s, o) && payment.user == s.ord.orders[o].user && payment.amount == s.ord.orders[o].total
  }

  predicate SagaOk(s: Sys, o: OrderId)
    requires o in s.ord.sagas
  {
    match s.ord.sagas[o].step
    case PAYMENT_CHARGE_SENT => HasReserved(s, o)
    case SAGA_COMPLETED => Captured(s, o)
    case COMPENSATING => Refused(s, o)
    case _ => true
  }

  /** An order's ledger rows: none, its reservation, or its reservation and its release. */
  predicate LedgerOk(s: Sys, o: OrderId) {
    && (RowsOf(s.inv.ledger, RESERVE, o) == [] || HasReserved(s, o))
    && (RowsOf(s.inv.ledger, RELEASE, o) == [] ||
        (HasReserved(s, o) && Compensating(s, o) && RowsOf(s.inv.ledger, RELEASE, o) == ReleaseRows(o, ItemsOf(s, o))))
  }

  function ReservedOf(s: Sys, p: ProductId): int {
    if p in s.inv.stock then s.inv.stock[p].reserved else 0
  }

  function AvailableOf(s: Sys, p: ProductId): int {
    if p in s.inv.stock then s.inv.stock[p].available else 0
  }

  /** reserved is what the ledger's RESERVE and RELEASE rows add up to. */
  ghost predicate StockOk(s: Sys) {
    && I.Sane(s.inv)
    && Attributed(s.inv.ledger)
    && forall p: ProductId :: HeldTotal(s.inv.ledger, p) == ReservedOf(s, p)
  }

  ghost predicate Inv(s: Sys) {
    && O.OrderInv(s.ord)
    && P.PaymentInv(s.pay)
    && StockOk(s)
    && (forall e | e in s.net :: Emitted(s, e))
    && (forall e | Emitted(s, e) :: EventOk(s, e))
    && (forall o | o in s.pay.payments :: PaymentOk(s, o))
    && (forall o | o in s.ord.sagas :: SagaOk(s, o))
    && (forall o: OrderId :: LedgerOk(s, o))
  }

  // ---- Facts that, once established, stay ----

  /** Orders keep their contents, reservations their rows, payments move forward, compensation stays. */
  ghost predicate Advances(s: Sys, s': Sys) {
    && (forall o | o in s.ord.orders ::
          && o in s'.ord.orders
          && s'.ord.orders[o].lines == s.ord.orders[o].lines
          && s'.ord.orders[o].user == s.ord.orders[o].user
          && s'.ord.orders[o].total == s.ord.orders[o].total)
    && (forall o | Compensating(s, o) :: Compensating(s', o))
    && (forall o | HasReserved(s, o) :: HasReserved(s', o))
    && (forall o | o in s.pay.payments :: P.Moved(s.pay, s'.pay, o))
  }

  lemma {:induction false} EventStaysOk(s: Sys, s': Sys, e: Event)
    requires Advances(s, s') && EventOk(s, e)
    ensures EventOk(s', e)
  {
    match e
    case InventoryReserve(o, _) => assert o in s'.ord.orders;
    case InventoryReserved(o, _) => assert HasReserved(s', o);
    case PaymentCharge(o, _, _) => assert HasReserved(s', o);
    case PaymentCompleted(o, _, _, _) => assert P.Moved(s.pay, s'.pay, o);
    case PaymentFailed(o, _, _, _) => assert P.Moved(s.pay, s'.pay, o);
    case InventoryRelease(o, _) =>
      assert HasReserved(s', o) && Compensating(s', o) && P.Moved(s.pay, s'.pay, o);
    case _ =>
  }

  lemma {:induction false} PaymentStaysOk(s: Sys, s': Sys, o: OrderId)
    requires Advances(s, s') && o in s.pay.payments && PaymentOk(s, o)
    ensures o in s'.pay.payments && PaymentOk(s', o)
  {
    assert P.Moved(s.pay, s'.pay, o) && HasReserved(s', o);
  }

  lemma {:induction false} LedgerStaysOk(s: Sys, s': Sys, o: OrderId)
    requires Advances(s, s') && LedgerOk(s, o) && s'.inv.ledger == s.inv.ledger
    ensures LedgerOk(s', o)
  {
    assert HasReserved(s, o) ==> HasReserved(s', o);
    assert Compensating(s, o) ==> Compensating(s', o);
  }

  // ---- Order-service steps ----

  /** What must hold elsewhere before a handler of the order service may run. */
  predicate OrderStepJustified(s: Sys, op: O.OrderOp) {
    match op
    case OnInventoryReserved(o) => HasReserved(s, o)
    case OnPaymentCompleted(o) => Captured(s, o)
    case OnPaymentFailed(o, _) => Refused(s, o)
    case _ => true
  }

  lemma {:induction false} OrderStepKeeps(s: Sys, op: O.OrderOp, o: OrderId)
    requires O.OrderInv(s.ord)
    ensures var s' := s.(ord := O.OrderNext(s.ord, op));
            && (o in s.ord.orders ==>
                  && o in s'.ord.orders && s'.ord.orders[o].lines == s.ord.orders[o].lines
                  && s'.ord.orders[o].user == s.ord.orders[o].user && s'.ord.orders[o].total == s.ord.orders[o].total)
            && (Compensating(s, o) ==> Compensating(s', o))
            && (HasReserved(s, o) ==> HasReserved(s', o))
  {
    if o in s.ord.orders {
      O.StepKeepsOrder(s.ord, op, o);
    } else {
      assert o !in s.ord.sagas;
    }
  }

  lemma {:induction false} OrderStepAdvances(s: Sys, op: O.OrderOp)
    requires O.OrderInv(s.ord)
    ensures Advances(s, s.(ord := O.OrderNext(s.ord, op)))
  {
    forall o: OrderId { OrderStepKeeps(s, op, o); }
  }

  /** What the order service emits is backed by the tables it leaves behind. */
  lemma {:induction false} NewOrderEventOk(s: Sys, op: O.OrderOp, e: Event)
    requires op.order in s.ord.orders ==> op.order in s.ord.sagas && O.OrderOk(s.ord, op.order)
    requires op.order in s.ord.sagas ==> op.order in s.ord.orders
    requires OrderStepJustified(s, op)
    requires op.OnPaymentFailed? ==> HasReserved(s, op.order)
    requires e in O.Emitted(s.ord, op)
    ensures EventOk(s.(ord := O.OrderNext(s.ord, op)), e)
  {
  }

  lemma {:induction false} OrderSagaStaysOk(s: Sys, op: O.OrderOp, o: OrderId)
    requires o in s.ord.sagas ==> o in s.ord.orders && SagaOk(s, o)
    requires OrderStepJustified(s, op)
    requires Advances(s, s.(ord := O.OrderNext(s.ord, op)))
    requires o in O.OrderNext(s.ord, op).sagas
    ensures SagaOk(s.(ord := O.OrderNext(s.ord, op)), o)
  {
    if o != op.order {
      O.OtherRowsSame(s.ord, op, o);
    }
    assert HasReserved(s, o) ==> HasReserved(s.(ord := O.OrderNext(s.ord, op)), o);
  }

  lemma {:induction false} OrderEventOk(s: Sys, op: O.OrderOp, e: Event)
    requires Inv(s) && OrderStepJustified(s, op)
    requires Emitted(s.(ord := O.OrderNext(s.ord, op)), e)
    ensures EventOk(s.(ord := O.OrderNext(s.ord, op)), e)
  {
    if Emitted(s, e) {
      OrderStepAdvances(s, op);
      EventStaysOk(s, s.(ord := O.OrderNext(s.ord, op)), e);
    } else {
      O.OutboxGrows(s.ord, op);
      assert op.order in s.ord.orders ==> op.order in s.ord.sagas && O.OrderOk(s.ord, op.order);
      assert op.OnPaymentFailed? ==> PaymentOk(s, op.order);
      NewOrderEventOk(s, op, e);
    }
  }

  lemma {:induction false} OrderKeepsEmitted(s: Sys, op: O.OrderOp, e: Event)
    requires Emitted(s, e)
    ensures Emitted(s.(ord := O.OrderNext(s.ord, op)), e)
  {
    O.OutboxGrows(s.ord, op);
  }

  lemma {:induction false} OrderEventsOk(s: Sys, op: O.OrderOp)
    requires Inv(s) && OrderStepJustified(s, op)
    ensures var s' := s.(ord := O.OrderNext(s.ord, op));
            && (forall e | e in s'.net :: Emitted(s', e))
            && (forall e | Emitted(s', e) :: EventOk(s', e))
  {
    var s' := s.(ord := O.OrderNext(s.ord, op));
    forall e | e in s'.net ensures Emitted(s', e) { OrderKeepsEmitted(s, op, e); }
    forall e | Emitted(s', e) ensures EventOk(s', e) { OrderEventOk(s, op, e); }
  }

  lemma {:induction false} OrderTablesOk(s: Sys, op: O.OrderOp)
    requires Inv(s) && OrderStepJustified(s, op)
    ensures var s' := s.(ord := O.OrderNext(s.ord, op));
            && (forall o | o in s'.pay.payments :: PaymentOk(s', o))
            && (forall o | o in s'.ord.sagas :: SagaOk(s', o))
            && (forall o: OrderId :: LedgerOk(s', o))
  {
    var s' := s.(ord := O.OrderNext(s.ord, op));
    OrderStepAdvances(s, op);
    forall o | o in s'.pay.payments ensures PaymentOk(s', o) { PaymentStaysOk(s, s', o); }
    forall o | o in s'.ord.sagas ensures SagaOk(s', o) { OrderSagaStaysOk(s, op, o); }
    forall o: OrderId ensures LedgerOk(s', o) { LedgerStaysOk(s, s', o); }
  }

  lemma {:induction false} OrderStepSafe(s: Sys, op: O.OrderOp)
    requires Inv(s) && OrderStepJustified(s, op)
    ensures Inv(s.(ord := O.OrderNext(s.ord, op)))
  {
    O.OrderStepKeepsInv(s.ord, op);
    OrderEventsOk(s, op);
    OrderTablesOk(s, op);
  }

  // ---- Payment-service steps ----

  predicate PaymentStepJustified(s: Sys, op: P.PaymentOp) {
    op.Charge? ==>
      && HasReserved(s, op.order)
      && op.user == s.ord.orders[op.order].user && op.amount == s.ord.orders[op.order].total
  }

  lemma {:induction false} PaymentAdvances(s: Sys, op: P.PaymentOp)
    requires Inv(s)
    ensures Advances(s, s.(pay := P.PaymentNext(s.pay, op)))
  {
    forall o ensures P.Moved(s.pay, P.PaymentNext(s.pay, op), o) { P.StepMovesForward(s.pay, op, o); }
  }

  lemma {:induction false} PaymentRowOk(s: Sys, op: P.PaymentOp, o: OrderId)
    requires PaymentStepJustified(s, op) && (o in s.pay.payments ==> PaymentOk(s, o))
    requires o in P.PaymentNext(s.pay, op).payments
    ensures PaymentOk(s.(pay := P.PaymentNext(s.pay, op)), o)
  {
    P.PartiesAfter(s.pay, op, o);
  }

  lemma {:induction false} PaymentSagaStaysOk(s: Sys, op: P.PaymentOp, o: OrderId)
    requires Inv(s) && o in s.ord.sagas
    ensures SagaOk(s.(pay := P.PaymentNext(s.pay, op)), o)
  {
    P.StepMovesForward(s.pay, op, o);
    assert SagaOk(s, o);
  }

  lemma {:induction false} PaymentEventsOk(s: Sys, op: P.PaymentOp)
    requires Inv(s)
    ensures var s' := s.(pay := P.PaymentNext(s.pay, op));
            && (forall e | e in s'.net :: Emitted(s', e))
            && (forall e | Emitted(s', e) :: EventOk(s', e))
  {
    var s' := s.(pay := P.PaymentNext(s.pay, op));
    PaymentAdvances(s, op);
    forall e | e in s.net ensures Emitted(s', e) { assert Emitted(s, e); }
    forall e | Emitted(s', e) ensures EventOk(s', e) {
      if Emitted(s, e) { EventStaysOk(s, s', e); } else { NewPaymentEventOk(s, op, e); }
    }
  }

  lemma {:induction false} PaymentStepSafe(s: Sys, op: P.PaymentOp)
    requires Inv(s) && PaymentStepJustified(s, op)
    ensures Inv(s.(pay := P.PaymentNext(s.pay, op)))
  {
    var s' := s.(pay := P.PaymentNext(s.pay, op));
    P.PaymentStepKeepsInv(s.pay, op);
    PaymentEventsOk(s, op);
    forall o | o in s'.pay.payments ensures PaymentOk(s', o) { PaymentRowOk(s, op, o); }
    forall o | o in s'.ord.sagas ensures SagaOk(s', o) { PaymentSagaStaysOk(s, op, o); }
    forall o: OrderId ensures LedgerOk(s', o) { assert LedgerOk(s, o); }
  }

  lemma {:induction false} NewPaymentEventOk(s: Sys, op: P.PaymentOp, e: Event)
    requires e in P.PaymentNext(s.pay, op).outbox && e !in s.pay.outbox
    ensures EventOk(s.(pay := P.PaymentNext(s.pay, op)), e)
  {
  }

  // ---- Inventory-service steps ----

  predicate InventoryStepJustified(s: Sys, op: I.InventoryOp) {
    match op
    case Upsert(_, _) => true
    case Adjust(_, _) => true
    case Reserve(o, items) => o in s.ord.orders && items == ItemsOf(s, o)
    case Release(o, items) => HasReserved(s, o) && Compensating(s, o) && items == ItemsOf(s, o)
  }

  /** The rows an inventory operation appends. */
  ghost function NewRows(db: I.InventoryDb, op: I.InventoryOp): seq<LedgerRow> {
    I.InventoryNext(db, op).ledger[|db.ledger|..]
  }

  lemma {:induction false} InventoryAppends(db: I.InventoryDb, op: I.InventoryOp)
    ensures |db.ledger| <= |I.InventoryNext(db, op).ledger|
    ensures I.InventoryNext(db, op).ledger == db.ledger + NewRows(db, op)
    ensures match op
            case Reserve(o, items) =>
              NewRows(db, op) == [] || (NewRows(db, op) == ReserveRows(o, items) && !HasRow(db.ledger, RESERVE, o))
            case Release(o, items) =>
              NewRows(db, op) == [] || (NewRows(db, op) == ReleaseRows(o, items) && !HasRow(db.ledger, RELEASE, o))
            case _ =>
              NewRows(db, op) == [] || (|NewRows(db, op)| == 1 && NewRows(db, op)[0].kind !in {RESERVE, RELEASE})
  {
  }

  /** Which rows an order has after an operation. */
  lemma {:induction false} RowsAfter(db: I.InventoryDb, op: I.InventoryOp, kind: LedgerType, o: OrderId)
    requires kind in {RESERVE, RELEASE}
    ensures RowsOf(I.InventoryNext(db, op).ledger, kind, o) == RowsOf(db.ledger, kind, o) +
      (if op.Reserve? && kind == RESERVE && op.order == o && NewRows(db, op) != [] then ReserveRows(o, op.items)
       else if op.Release? && kind == RELEASE && op.order == o && NewRows(db, op) != [] then ReleaseRows(o, op.items)
       else [])
  {
    InventoryAppends(db, op);
    var rows := NewRows(db, op);
    RowsOfAppend(db.ledger, rows, kind, o);
    if rows == [] {
    } else if op.Reserve? {
      RowsOfUniform(rows, RESERVE, op.order, kind, o);
    } else if op.Release? {
      RowsOfUniform(rows, RELEASE, op.order, kind, o);
    } else {
      assert rows[..0] == [];
    }
  }

  lemma {:induction false} InventoryKeepsReserved(s: Sys, op: I.InventoryOp, o: OrderId)
    requires HasReserved(s, o) && (op.Reserve? && op.order == o ==> op.items == ItemsOf(s, o))
    ensures HasReserved(s.(inv := I.InventoryNext(s.inv, op)), o)
  {
    RowsAfter(s.inv, op, RESERVE, o);
    InventoryAppends(s.inv, op);
    if op.Reserve? && op.order == o && NewRows(s.inv, op) != [] {
      RowsOfEmptyIff(s.inv.ledger, RESERVE, o);
    }
  }

  lemma {:induction false} InventoryAdvances(s: Sys, op: I.InventoryOp)
    requires InventoryStepJustified(s, op)
    ensures Advances(s, s.(inv := I.InventoryNext(s.inv, op)))
  {
    forall o | HasReserved(s, o) ensures HasReserved(s.(inv := I.InventoryNext(s.inv, op)), o) {
      InventoryKeepsReserved(s, op, o);
    }
  }

  lemma {:induction false} InventoryLedgerOk(s: Sys, op: I.InventoryOp, o: OrderId)
    requires LedgerOk(s, o) && InventoryStepJustified(s, op)
    ensures LedgerOk(s.(inv := I.InventoryNext(s.inv, op)), o)
  {
    var s' := s.(inv := I.InventoryNext(s.inv, op));
    InventoryAppends(s.inv, op);
    RowsAfter(s.inv, op, RESERVE, o);
    RowsAfter(s.inv, op, RELEASE, o);
    RowsOfEmptyIff(s.inv.ledger, RESERVE, o);
    RowsOfEmptyIff(s.inv.ledger, RELEASE, o);
    if HasReserved(s, o) { InventoryKeepsReserved(s, op, o); }
  }

  lemma {:induction false} ReservedEventOk(s: Sys, o: OrderId, items: seq<Item>)
    requires o in s.ord.orders && items == ItemsOf(s, o)
    requires !HasRow(s.inv.ledger, RESERVE, o) && I.Fits(s.inv.stock, items)
    ensures HasReserved(s.(inv := I.ReserveNext(s.inv, o, items)), o)
  {
    RowsOfEmptyIff(s.inv.ledger, RESERVE, o);
    RowsOfAfterReserve(s.inv.ledger, o, items, RESERVE, o);
  }

  lemma {:induction false} NewInventoryEvent(db: I.InventoryDb, op: I.InventoryOp, e: Event)
    requires e in I.InventoryNext(db, op).outbox && e !in db.outbox
    ensures e.InventoryReserved? || e.ReservationFailed? || e.InventoryReleased? || e.StockUpdated?
    ensures e.InventoryReserved? ==>
      op.Reserve? && e.order == op.order && !HasRow(db.ledger, RESERVE, op.order) && I.Fits(db.stock, op.items)
  {
  }

  lemma {:induction false} NewInventoryEventOk(s: Sys, op: I.InventoryOp, e: Event)
    requires InventoryStepJustified(s, op)
    requires e in I.InventoryNext(s.inv, op).outbox && e !in s.inv.outbox
    ensures EventOk(s.(inv := I.InventoryNext(s.inv, op)), e)
  {
    NewInventoryEvent(s.inv, op, e);
    if e.InventoryReserved? {
      ReservedEventOk(s, op.order, op.items);
    }
  }

  /** What an order holds of a product, read off its rows. */
  lemma {:induction false} HeldByOrder(s: Sys, o: OrderId, p: ProductId)
    requires LedgerOk(s, o)
    ensures HeldBy(s.inv.ledger, o, p) ==
      if o in s.ord.orders && HasRow(s.inv.ledger, RESERVE, o) && !HasRow(s.inv.ledger, RELEASE, o)
      then Demand(ItemsOf(s, o), p) else 0
  {
    RowsOfEmptyIff(s.inv.ledger, RESERVE, o);
    RowsOfEmptyIff(s.inv.ledger, RELEASE, o);
    if o in s.ord.orders {
      HeldByReserveRows(o, ItemsOf(s, o), p);
    }
  }

  /** No product's reserved count is below what one order still holds of it. */
  lemma {:induction false} HeldIsReserved(s: Sys, o: OrderId, p: ProductId)
    requires Inv(s)
    ensures 0 <= HeldBy(s.inv.ledger, o, p) <= ReservedOf(s, p)
  {
    var ledger := s.inv.ledger;
    forall r: OrderId ensures HeldBy(ledger, r, p) >= 0 {
      assert LedgerOk(s, r);
      HeldByOrder(s, r, p);
    }
    HeldPartition(ledger, p);
    if o in Refs(ledger) {
      SumAtLeast(HeldMap(ledger, p), o);
    } else {
      HeldByNone(ledger, o, p);
      SumNonNegative(HeldMap(ledger, p));
    }
  }

  /** A justified release never asks for more than is reserved. */
  lemma {:induction false} ReleaseFits(s: Sys, o: OrderId, p: ProductId)
    requires Inv(s) && HasReserved(s, o) && !HasRow(s.inv.ledger, RELEASE, o)
    ensures Demand(ItemsOf(s, o), p) <= ReservedOf(s, p)
  {
    assert LedgerOk(s, o);
    HeldByOrder(s, o, p);
    HeldIsReserved(s, o, p);
    RowsOfEmptyIff(s.inv.ledger, RESERVE, o);
    if !HasRow(s.inv.ledger, RESERVE, o) {
      assert |ReserveRows(o, ItemsOf(s, o))| == 0;
    }
  }

  lemma {:induction false} StaysAttributed(db: I.InventoryDb, op: I.InventoryOp)
    requires Attributed(db.ledger)
    ensures Attributed(I.InventoryNext(db, op).ledger)
  {
    InventoryAppends(db, op);
  }

  lemma {:induction false} InventoryStockOk(s: Sys, op: I.InventoryOp)
    requires Inv(s) && InventoryStepJustified(s, op)
    ensures StockOk(s.(inv := I.InventoryNext(s.inv, op)))
  {
    var s' := s.(inv := I.InventoryNext(s.inv, op));
    I.StepKeepsSane(s.inv, op, 0);
    StaysAttributed(s.inv, op);
    forall p: ProductId ensures HeldTotal(s'.inv.ledger, p) == ReservedOf(s', p) {
      if op.Release? && !HasRow(s.inv.ledger, RELEASE, op.order) { ReleaseFits(s, op.order, p); }
      StockOfProductOk(s, op, p);
    }
  }

  lemma {:induction false} StockOfProductOk(s: Sys, op: I.InventoryOp, p: ProductId)
    requires HeldTotal(s.inv.ledger, p) == ReservedOf(s, p)
    requires op.Release? ==> HasRow(s.inv.ledger, RELEASE, op.order) || Demand(op.items, p) <= ReservedOf(s, p)
    ensures var s' := s.(inv := I.InventoryNext(s.inv, op)); HeldTotal(s'.inv.ledger, p) == ReservedOf(s', p)
  {
    var rows := NewRows(s.inv, op);
    InventoryAppends(s.inv, op);
    HeldTotalAppend(s.inv.ledger, rows, p);
    match op
    case Reserve(o, items) => ReserveMovesReserved(s, o, items, p);
    case Release(o, items) => ReleaseMovesReserved(s, o, items, p);
    case _ =>
      if rows != [] { assert rows[..0] == []; }
  }

  /** A reservation adds its demand to reserved, or nothing when it appends no rows. */
  lemma {:induction false} ReserveMovesReserved(s: Sys, o: OrderId, items: seq<Item>, p: ProductId)
    ensures var s' := s.(inv := I.ReserveNext(s.inv, o, items));
            ReservedOf(s', p) == ReservedOf(s, p) + HeldTotal(NewRows(s.inv, I.Reserve(o, items)), p)
  {
    HeldByReserveRows(o, items, p);
    InventoryAppends(s.inv, I.Reserve(o, items));
    if I.ReserveNext(s.inv, o, items).ledger == s.inv.ledger {
      assert NewRows(s.inv, I.Reserve(o, items)) == [];
      assert |ReserveRows(o, items)| == |items|;
    } else {
      assert I.Fits(s.inv.stock, items);
    }
  }

  /** A release that fits takes its demand off reserved, or nothing when it appends no rows. */
  lemma {:induction false} ReleaseMovesReserved(s: Sys, o: OrderId, items: seq<Item>, p: ProductId)
    requires HasRow(s.inv.ledger, RELEASE, o) || Demand(items, p) <= ReservedOf(s, p)
    ensures var s' := s.(inv := I.ReleaseNext(s.inv, o, items));
            ReservedOf(s', p) == ReservedOf(s, p) + HeldTotal(NewRows(s.inv, I.Release(o, items)), p)
  {
    InventoryAppends(s.inv, I.Release(o, items));
    if HasRow(s.inv.ledger, RELEASE, o) {
      assert NewRows(s.inv, I.Release(o, items)) == [];
    } else {
      HeldByReserveRows(o, items, p);
      assert NewRows(s.inv, I.Release(o, items)) == ReleaseRows(o, items);
    }
  }

  lemma {:induction false} InventoryStepSafe(s: Sys, op: I.InventoryOp)
    requires Inv(s) && InventoryStepJustified(s, op)
    ensures Inv(s.(inv := I.InventoryNext(s.inv, op)))
  {
    var s' := s.(inv := I.InventoryNext(s.inv, op));
    InventoryAdvances(s, op);
    InventoryStockOk(s, op);
    forall e | e in s.inv.outbox ensures e in s'.inv.outbox {}
    forall e | Emitted(s', e) ensures EventOk(s', e) {
      if Emitted(s, e) { EventStaysOk(s, s', e); } else { NewInventoryEventOk(s, op, e); }
    }
    forall o | o in s'.pay.payments ensures PaymentOk(s', o) { PaymentStaysOk(s, s', o); }
    forall o | o in s'.ord.sagas ensures SagaOk(s', o) {
      assert SagaOk(s, o);
      assert HasReserved(s, o) ==> HasReserved(s', o);
    }
    forall o: OrderId ensures LedgerOk(s', o) { InventoryLedgerOk(s, op, o); }
  }

  // ---- Every step, every run ----

  lemma {:induction false} StepSafe(s: Sys, step: Step)
    requires Inv(s) && Enabled(s, step)
    ensures Inv(Next(s, step))
  {
    match step
    case Client(op) => OrderStepSafe(s, op);
    case Admin(op) => InventoryStepSafe(s, op);
    case RefundCommand(o, throws) => PaymentStepSafe(s, P.Refund(o, throws));
    case Pick(_) => TransportSafe(s, Next(s, step));
    case Send(row) =>
      assert EventOf(s, row) in Outbox(s, row.service);
      TransportSafe(s, Next(s, step));
    case Mark(_) => TransportSafe(s, Next(s, step));
    case Abandon(_) => TransportSafe(s, Next(s, step));
    case Drop(_) => TransportSafe(s, Next(s, step));
    case ToOrder(e) =>
      assert EventOk(s, e);
      if OrderDispatch(e).Some? { OrderStepSafe(s, OrderDispatch(e).value); }
    case ToInventory(e) =>
      assert EventOk(s, e);
      if InventoryDispatch(e).Some? { InventoryStepSafe(s, InventoryDispatch(e).value); }
    case ToPayment(e, result) =>
      assert EventOk(s, e);
      if PaymentDispatch(e, result).Some? { PaymentStepSafe(s, PaymentDispatch(e, result).value); }
  }

  /** Only marks, holds and messages may differ. */
  predicate SameTables(s: Sys, s': Sys) {
    s'.ord == s.ord && s'.inv == s.inv && s'.pay == s.pay
  }

  /** Marks, holds and messages are no part of what vouches for the tables. */
  lemma {:induction false} TransportDoesNotMatter(s: Sys, s': Sys, o: OrderId, e: Event)
    requires SameTables(s, s')
    ensures (Emitted(s', e) <==> Emitted(s, e)) && (EventOk(s', e) <==> EventOk(s, e))
    ensures (LedgerOk(s', o) <==> LedgerOk(s, o)) && (StockOk(s') <==> StockOk(s))
    ensures o in s.ord.sagas ==> (SagaOk(s', o) <==> SagaOk(s, o))
    ensures o in s.pay.payments ==> (PaymentOk(s', o) <==> PaymentOk(s, o))
  {
  }

  lemma {:induction false} TransportSafe(s: Sys, s': Sys)
    requires Inv(s) && SameTables(s, s') && forall e | e in s'.net :: Emitted(s, e)
    ensures Inv(s')
  {
    TransportDoesNotMatter(s, s', 0, OrderCompleted(0));
    forall x | Emitted(s', x) ensures EventOk(s', x) { TransportDoesNotMatter(s, s', 0, x); }
    forall x | x in s'.net ensures Emitted(s', x) { TransportDoesNotMatter(s, s', 0, x); }
    forall o: OrderId ensures LedgerOk(s', o) { TransportDoesNotMatter(s, s', o, OrderCompleted(0)); }
    forall o | o in s'.ord.sagas ensures SagaOk(s', o) { TransportDoesNotMatter(s, s', o, OrderCompleted(0)); }
    forall o | o in s'.pay.payments ensures PaymentOk(s', o) { TransportDoesNotMatter(s, s', o, OrderCompleted(0)); }
  }

  lemma {:induction false} InitSafe()
    ensures Inv(INIT)
  {
  }

  lemma {:induction false} RunSafe(steps: seq<Step>)
    requires ValidRun(steps)
    ensures Inv(Run(steps))
    decreases |steps|
  {
    if steps == [] {
      InitSafe();
    } else {
      RunSafe(steps[..|steps| - 1]);
      StepSafe(Run(steps[..|steps| - 1]), steps[|steps| - 1]);
    }
  }

  // ---- Longer runs ----

  lemma {:induction false} RunSnoc(steps: seq<Step>, step: Step)
    requires ValidRun(steps) && Enabled(Run(steps), step)
    ensures ValidRun(steps + [step]) && Run(steps + [step]) == Next(Run(steps), step)
  {
    assert (steps + [step])[..|steps|] == steps;
  }

  /** A continuation, one step at a time. */
  lemma {:induction false} AppendOne(steps: seq<Step>, more: seq<Step>)
    requires more != []
    ensures var before, last := steps + more[..|more| - 1], more[|more| - 1];
            && Run(steps + more) == Next(Run(before), last)
            && (ValidRun(steps + more) <==> ValidRun(before) && Enabled(Run(before), last))
  {
    assert (steps + more)[..|steps + more| - 1] == steps + more[..|more| - 1];
  }

  lemma {:induction false} PrefixIsValid(steps: seq<Step>, more: seq<Step>)
    requires ValidRun(steps + more)
    ensures ValidRun(steps)
    decreases |more|
  {
    if more == [] {
      assert steps + more == steps;
    } else {
      AppendOne(steps, more);
      PrefixIsValid(steps, more[..|more| - 1]);
    }
  }

  lemma {:induction false} Associative(a: seq<Step>, b: seq<Step>, c: seq<Step>)
    ensures a + b + c == a + (b + c)
  {
  }
}
