/** Refunds, and the orders that keep their customer's money or their stock for good. */
module Stranding {
  import opened Common
  import opened Events
  import opened Ledger
  import opened System
  import opened Guarantees
  import opened Delivery
  import I = Inventory
  import O = OrderSaga
  import P = Payment

  // ---- Refunds: the payment service obeys payment.refund, which no service sends ----

  lemma {:induction false} OrderSendsNoRefund(db: O.OrderDb, op: O.OrderOp, o: OrderId)
    requires PaymentRefund(o) !in db.outbox
    ensures PaymentRefund(o) !in O.OrderNext(db, op).outbox
  {
    O.OutboxGrows(db, op);
    O.EmitsOwnEvents(db, op);
  }

  lemma {:induction false} StepSendsNoRefund(s: Sys, step: Step, o: OrderId)
    requires !Emitted(s, PaymentRefund(o))
    ensures !Emitted(Next(s, step), PaymentRefund(o))
  {
    match step
    case Client(op) => OrderSendsNoRefund(s.ord, op, o);
    case ToOrder(e) => if OrderDispatch(e).Some? { OrderSendsNoRefund(s.ord, OrderDispatch(e).value, o); }
    case _ =>
  }

  /** In no run does any service ask for a refund. */
  lemma {:induction false} NobodySendsRefunds(steps: seq<Step>, o: OrderId)
    ensures !Emitted(Run(steps), PaymentRefund(o))
    decreases |steps|
  {
    if steps != [] {
      NobodySendsRefunds(steps[..|steps| - 1], o);
      StepSendsNoRefund(Run(steps[..|steps| - 1]), steps[|steps| - 1], o);
    }
  }

  predicate Refunded(s: Sys, o: OrderId) {
    o in s.pay.payments && s.pay.payments[o].status == P.REFUNDED
  }

  predicate StatusIs(db: P.PaymentDb, o: OrderId, status: P.PaymentStatus) {
    o in db.payments && db.payments[o].status == status
  }

  lemma {:induction false} PaymentOpRefunds(db: P.PaymentDb, op: P.PaymentOp, o: OrderId)
    requires !StatusIs(db, o, P.PENDING)
    ensures var db' := P.PaymentNext(db, op);
            && (StatusIs(db', o, P.REFUNDED) <==>
                  StatusIs(db, o, P.REFUNDED) || (StatusIs(db, o, P.COMPLETED) && op == P.Refund(o, false)))
            && (StatusIs(db, o, P.COMPLETED) ==> StatusIs(db', o, P.COMPLETED) || StatusIs(db', o, P.REFUNDED))
  {
  }

  lemma {:induction false} NoRefundInNet(steps: seq<Step>, o: OrderId)
    requires ValidRun(steps)
    ensures PaymentRefund(o) !in Run(steps).net
  {
    RunSafe(steps);
    NobodySendsRefunds(steps, o);
    if PaymentRefund(o) in Run(steps).net { NetIsOk(Run(steps), PaymentRefund(o)); }
  }

  lemma {:induction false} DeliversNoRefund(s: Sys, step: Step, o: OrderId)
    requires PaymentRefund(o) !in s.net && Enabled(s, step)
    ensures PaymentOpOf(step) == Some(P.Refund(o, false)) <==> step == RefundCommand(o, false)
  {
  }

  lemma {:induction false} NonePending(steps: seq<Step>, o: OrderId)
    requires ValidRun(steps)
    ensures !StatusIs(Run(steps).pay, o, P.PENDING)
  {
    RunSafe(steps);
    var db := Run(steps).pay;
    if o in db.payments { assert P.TrailMatches(P.Trail(db.outbox, o), o, db.payments[o]); }
  }

  /** Only a refund command from outside the three services refunds a payment, and only a captured one. */
  lemma {:induction false} StepRefunds(steps: seq<Step>, step: Step, o: OrderId)
    requires ValidRun(steps) && Enabled(Run(steps), step)
    ensures var s, s' := Run(steps), Next(Run(steps), step);
            && (Refunded(s', o) <==> Refunded(s, o) || (step == RefundCommand(o, false) && Captured(s, o)))
            && (Captured(s, o) ==> Captured(s', o))
  {
    NonePending(steps, o);
    NoRefundInNet(steps, o);
    DeliversNoRefund(Run(steps), step, o);
    PaymentPart(Run(steps), step);
    if PaymentOpOf(step).Some? { PaymentOpRefunds(Run(steps).pay, PaymentOpOf(step).value, o); }
  }

  /** Step k is a refund command that finds o's payment captured and does not fail. */
  ghost predicate RefundsAt(steps: seq<Step>, k: nat, o: OrderId)
    requires k < |steps|
  {
    steps[k] == RefundCommand(o, false) && Captured(Run(steps[..k]), o)
  }

  /** In every run a payment is REFUNDED if and only if a refund command came after its capture. */
  lemma {:induction false} RefundedIff(steps: seq<Step>, o: OrderId)
    requires ValidRun(steps)
    ensures Refunded(Run(steps), o) <==> exists k: nat | k < |steps| :: RefundsAt(steps, k, o)
    decreases |steps|
  {
    if steps != [] {
      var n := |steps| - 1;
      RefundedIff(steps[..n], o);
      StepRefunds(steps[..n], steps[n], o);
      RefundsSnoc(steps, o);
    }
  }

  lemma {:induction false} RefundsSnoc(steps: seq<Step>, o: OrderId)
    requires steps != []
    ensures var n := |steps| - 1;
            (exists k: nat | k < |steps| :: RefundsAt(steps, k, o)) <==>
              RefundsAt(steps, n, o) || exists k: nat | k < n :: RefundsAt(steps[..n], k, o)
  {
    var n := |steps| - 1;
    forall k: nat | k < n ensures RefundsAt(steps[..n], k, o) <==> RefundsAt(steps, k, o) {
      assert steps[..n][..k] == steps[..k];
    }
  }

  lemma {:induction false} InFrontOrLast(steps: seq<Step>, step: Step)
    requires steps != []
    ensures step in steps <==> step in steps[..|steps| - 1] || step == steps[|steps| - 1]
  {
    assert steps == steps[..|steps| - 1] + [steps[|steps| - 1]];
  }

  /** What becomes of a captured payment: it stays COMPLETED unless a refund command comes from outside. */
  lemma {:induction false} CapturedStaysIff(steps: seq<Step>, more: seq<Step>, o: OrderId)
    requires ValidRun(steps + more) && Captured(Run(steps), o)
    ensures Captured(Run(steps + more), o)
    ensures Refunded(Run(steps + more), o) <==> Refunded(Run(steps), o) || RefundCommand(o, false) in more
    decreases |more|
  {
    if more == [] {
      assert steps + more == steps;
    } else {
      var n := |more| - 1;
      AppendOne(steps, more);
      CapturedStaysIff(steps, more[..n], o);
      StepRefunds(steps + more[..n], more[n], o);
      InFrontOrLast(more, RefundCommand(o, false));
    }
  }

  /** An order that failed without compensation, holds its stock and has been paid for. */
  predicate Stranded(s: Sys, o: OrderId) {
    && o in s.ord.orders && s.ord.orders[o].status == O.FAILED && !Compensating(s, o)
    && Holding(s, o) && Captured(s, o) && !Refunded(s, o)
  }

  lemma {:induction false} StrandedHasEnded(s: Sys, o: OrderId)
    requires Inv(s) && Stranded(s, o)
    ensures o in s.ord.sagas && !O.Running(s.ord, o)
  {
    assert O.OrderOk(s.ord, o);
  }

  /**
   * In every continuation of every run, a stranded order stays FAILED, keeps its whole demand reserved, and its payment
   * stays COMPLETED if and only if nobody outside the three services sends it a refund command.
   */
  lemma {:induction false} StrandedForGood(steps: seq<Step>, more: seq<Step>, o: OrderId, p: ProductId)
    requires ValidRun(steps) && ValidRun(steps + more) && Stranded(Run(steps), o)
    ensures var s := Run(steps + more);
            && o in s.ord.orders && s.ord.orders[o] == Run(steps).ord.orders[o]
            && Holding(s, o) && Demand(ItemsOf(Run(steps), o), p) <= ReservedOf(s, p)
            && Captured(s, o) && (Refunded(s, o) <==> RefundCommand(o, false) in more)
  {
    RunSafe(steps);
    StrandedHasEnded(Run(steps), o);
    RunAppendEnded(steps, more, o);
    OthersCannotRelease(steps, more, o);
    RowsPersist(steps, more, RESERVE, o);
    CapturedStaysIff(steps, more, o);
    StockIsConserved(steps + more, p);
  }

  lemma {:induction false} TimeoutAborts(db: O.OrderDb, o: OrderId)
    requires O.Running(db, o) && o in db.orders
    ensures var db' := O.OrderNext(db, O.Timeout(o));
            && o in db'.orders && db'.orders[o].status == O.FAILED && db'.orders[o].lines == db.orders[o].lines
            && o in db'.sagas && db'.sagas[o].step == O.SAGA_FAILED
  {
  }

  /** A timeout strands every order that is paid for and not completed yet, also one whose completion event is lost. */
  lemma {:induction false} TimeoutStrands(steps: seq<Step>, o: OrderId)
    requires ValidRun(steps) && O.Running(Run(steps).ord, o) && o in Run(steps).ord.orders
    requires Run(steps).ord.orders[o].lines != [] && Captured(Run(steps), o) && !Refunded(Run(steps), o)
    ensures ValidRun(steps + [Client(O.Timeout(o))]) && Stranded(Run(steps + [Client(O.Timeout(o))]), o)
  {
    RunSnoc(steps, Client(O.Timeout(o)));
    TimeoutAborts(Run(steps).ord, o);
    CapturedHolds(steps + [Client(O.Timeout(o))], o);
  }

  // ---- Concrete runs ----

  const LINES := [Line(7, 2, 10)]
  const ITEMS := [Item(7, 2)]

  /** The rows of the reserve command, of its answer, of the charge and of its outcome. */
  const RESERVE_ROW := RowId(ORDERS, 1)
  const RESERVED_ROW := RowId(INVENTORY, 1)
  const CHARGE_ROW := RowId(ORDERS, 2)
  const OUTCOME_ROW := RowId(PAYMENTS, 0)

  const RESERVE_MESSAGE := InventoryReserve(1, ITEMS)
  const RESERVED_MESSAGE := InventoryReserved(1, ITEMS)
  const CHARGE_MESSAGE := PaymentCharge(1, 4, 20)
  const PAID_MESSAGE := PaymentCompleted(1, 4, 20, 9)
  const FAILED_MESSAGE := PaymentFailed(1, 4, 20, None)

  /** Stock arrives and an order is placed; it is reserved; the order service hears of it; its charge is sent. */
  const PLACED: seq<Step> := [Admin(I.Upsert(7, 5)), Client(O.Create(1, 4, LINES, None, 0))]
  const RESERVED: seq<Step> := PLACED + [Pick(RESERVE_ROW), Send(RESERVE_ROW), ToInventory(RESERVE_MESSAGE)]
  const CONFIRMED: seq<Step> := RESERVED + [Pick(RESERVED_ROW), Send(RESERVED_ROW), ToOrder(RESERVED_MESSAGE)]
  const CHARGED: seq<Step> := CONFIRMED + [Pick(CHARGE_ROW), Send(CHARGE_ROW)]

  /** The charge succeeds; the order service hears of it. */
  const APPROVED: seq<Step> := CHARGED + [ToPayment(CHARGE_MESSAGE, P.Approved(9))]
  const FULFILLED: seq<Step> := APPROVED + [Pick(OUTCOME_ROW), Send(OUTCOME_ROW), ToOrder(PAID_MESSAGE)]

  /** The saga times out, and then the charge succeeds. */
  const LATE_CHARGE: seq<Step> := CHARGED + [Client(O.Timeout(1)), ToPayment(CHARGE_MESSAGE, P.Approved(9))]

  /** The charge is declined; the order service hears of it. */
  const REFUSED: seq<Step> := CHARGED + [ToPayment(CHARGE_MESSAGE, P.Declined(None))]
  const DECLINED: seq<Step> := REFUSED + [Pick(OUTCOME_ROW), Send(OUTCOME_ROW), ToOrder(FAILED_MESSAGE)]

  lemma {:induction false} PickSendRun(steps: seq<Step>, row: RowId)
    requires ValidRun(steps) && RowExists(Run(steps), row) && row !in Run(steps).marked
    ensures var s, s' := Run(steps), Run(steps + [Pick(row), Send(row)]);
            && ValidRun(steps + [Pick(row), Send(row)])
            && SameTables(s, s') && s'.marked == s.marked && s'.net == s.net + {EventOf(s, row)}
  {
    PickAndSend(Run(steps), row);
    RunTwo(steps, Pick(row), Send(row));
  }

  lemma {:induction false} AfterCreate()
    ensures var s := Run(PLACED);
            && ValidRun(PLACED) && s.marked == {} && s.pay == P.EMPTY
            && s.inv.stock == map[7 := I.Stock(5, 0, 5)]
            && !HasRow(s.inv.ledger, RESERVE, 1) && |s.inv.outbox| == 1
            && s.ord == O.OrderNext(O.EMPTY, O.Create(1, 4, LINES, None, 0))
            && RowExists(s, RESERVE_ROW) && EventOf(s, RESERVE_ROW) == RESERVE_MESSAGE
  {
    assert LINES[..0] == [];
    assert Items(LINES) == ITEMS;
    RunTwo([], PLACED[0], PLACED[1]);
    assert [] + [PLACED[0], PLACED[1]] == PLACED;
  }

  lemma {:induction false} ReserveSucceeds(db: I.InventoryDb)
    requires db.stock == map[7 := I.Stock(5, 0, 5)] && !HasRow(db.ledger, RESERVE, 1)
    ensures I.ReserveNext(db, 1, ITEMS).stock == map[7 := I.Stock(5, 2, 3)]
    ensures HasRow(I.ReserveNext(db, 1, ITEMS).ledger, RESERVE, 1)
    ensures I.ReserveNext(db, 1, ITEMS).outbox == db.outbox + [InventoryReserved(1, ITEMS)]
  {
    assert ITEMS[..0] == [];
    forall p: ProductId ensures Demand(ITEMS, p) == if p == 7 then 2 else 0 {}
    assert I.Fits(db.stock, ITEMS);
    I.StepLeavesRow(db, I.Reserve(1, ITEMS), 1);
  }

  lemma {:induction false} DeliverReserve(s: Sys)
    requires s.inv.stock == map[7 := I.Stock(5, 0, 5)] && !HasRow(s.inv.ledger, RESERVE, 1) && |s.inv.outbox| == 1
    ensures var s' := Next(s, ToInventory(InventoryReserve(1, ITEMS)));
            && s'.ord == s.ord && s'.pay == s.pay && s'.marked == s.marked && HasRow(s'.inv.ledger, RESERVE, 1)
            && RowExists(s', RESERVED_ROW) && EventOf(s', RESERVED_ROW) == InventoryReserved(1, ITEMS)
  {
    ReserveSucceeds(s.inv);
  }

  /** Sending a row and then delivering its message. */
  lemma {:induction false} SendAndDeliver(steps: seq<Step>, row: RowId, deliver: Step)
    requires ValidRun(steps) && RowExists(Run(steps), row) && row !in Run(steps).marked
    requires var e := EventOf(Run(steps), row); deliver == ToInventory(e) || deliver == ToOrder(e)
    ensures var more := [Pick(row), Send(row), deliver];
            exists s :: SameTables(Run(steps), s) && s.marked == Run(steps).marked
                     && EndsIn(steps + more, Next(s, deliver))
  {
    var sent := steps + [Pick(row), Send(row)];
    PickSendRun(steps, row);
    RunSnoc(sent, deliver);
    assert sent + [deliver] == steps + [Pick(row), Send(row), deliver];
  }

  lemma {:induction false} AfterReserve()
    ensures var s := Run(RESERVED);
            && ValidRun(RESERVED) && s.marked == {} && s.pay == P.EMPTY && HasRow(s.inv.ledger, RESERVE, 1)
            && s.ord == O.OrderNext(O.EMPTY, O.Create(1, 4, LINES, None, 0))
            && RowExists(s, RESERVED_ROW) && EventOf(s, RESERVED_ROW) == RESERVED_MESSAGE
  {
    AfterCreate();
    SendAndDeliver(PLACED, RESERVE_ROW, ToInventory(RESERVE_MESSAGE));
    var s :| SameTables(Run(PLACED), s) && s.marked == {} && EndsIn(RESERVED, Next(s, ToInventory(RESERVE_MESSAGE)));
    DeliverReserve(s);
  }

  lemma {:induction false} ChargeIsEmitted(db: O.OrderDb)
    requires db == O.OrderNext(O.EMPTY, O.Create(1, 4, LINES, None, 0))
    ensures var db' := O.OrderNext(db, O.OnInventoryReserved(1));
            && |db'.outbox| == 3 && db'.outbox[2] == PaymentCharge(1, 4, 20)
            && O.Running(db', 1) && 1 in db'.orders && db'.orders[1].lines == LINES && db'.sagas[1].lines == LINES
  {
    assert LINES[..0] == [];
    assert Total(LINES) == 20;
  }

  lemma {:induction false} DeliverReserved(s: Sys)
    requires s.ord == O.OrderNext(O.EMPTY, O.Create(1, 4, LINES, None, 0))
    ensures var s' := Next(s, ToOrder(InventoryReserved(1, ITEMS)));
            && s'.inv == s.inv && s'.pay == s.pay && s'.marked == s.marked
            && O.Running(s'.ord, 1) && 1 in s'.ord.orders && s'.ord.orders[1].lines == LINES
            && RowExists(s', CHARGE_ROW) && EventOf(s', CHARGE_ROW) == PaymentCharge(1, 4, 20)
  {
    ChargeIsEmitted(s.ord);
  }

  lemma {:induction false} AfterReserved()
    ensures var s := Run(CONFIRMED);
            && ValidRun(CONFIRMED) && s.marked == {} && s.pay == P.EMPTY && HasRow(s.inv.ledger, RESERVE, 1)
            && O.Running(s.ord, 1) && 1 in s.ord.orders && s.ord.orders[1].lines == LINES
            && RowExists(s, CHARGE_ROW) && EventOf(s, CHARGE_ROW) == CHARGE_MESSAGE
  {
    AfterReserve();
    SendAndDeliver(RESERVED, RESERVED_ROW, ToOrder(RESERVED_MESSAGE));
    var s :| SameTables(Run(RESERVED), s) && s.marked == {} && EndsIn(CONFIRMED, Next(s, ToOrder(RESERVED_MESSAGE)));
    DeliverReserved(s);
  }

  /** The order runs, is reserved, and its charge is on the network. */
  lemma {:induction false} AfterCharge()
    ensures var s := Run(CHARGED);
            && ValidRun(CHARGED) && s.marked == {} && s.pay == P.EMPTY && CHARGE_MESSAGE in s.net
            && HasRow(s.inv.ledger, RESERVE, 1)
            && O.Running(s.ord, 1) && 1 in s.ord.orders && s.ord.orders[1].lines == LINES
  {
    AfterReserved();
    PickSendRun(CONFIRMED, CHARGE_ROW);
  }

  lemma {:induction false} DeliverApproval(s: Sys)
    requires s.pay == P.EMPTY
    ensures var s' := Next(s, ToPayment(PaymentCharge(1, 4, 20), P.Approved(9)));
            && s'.ord == s.ord && s'.inv == s.inv && s'.marked == s.marked
            && 1 in s'.pay.payments && s'.pay.payments[1].status == P.COMPLETED
            && RowExists(s', OUTCOME_ROW) && EventOf(s', OUTCOME_ROW) == PaymentCompleted(1, 4, 20, 9)
  {
  }

  lemma {:induction false} AfterApproved()
    ensures var s := Run(APPROVED);
            && ValidRun(APPROVED) && s.marked == {} && HasRow(s.inv.ledger, RESERVE, 1)
            && 1 in s.pay.payments && s.pay.payments[1].status == P.COMPLETED
            && O.Running(s.ord, 1) && 1 in s.ord.orders
            && RowExists(s, OUTCOME_ROW) && EventOf(s, OUTCOME_ROW) == PAID_MESSAGE
  {
    AfterCharge();
    RunSnoc(CHARGED, ToPayment(CHARGE_MESSAGE, P.Approved(9)));
    DeliverApproval(Run(CHARGED));
  }

  lemma {:induction false} DeliverCompletion(s: Sys)
    requires O.Running(s.ord, 1) && 1 in s.ord.orders
    ensures var s' := Next(s, ToOrder(PaymentCompleted(1, 4, 20, 9)));
            && s'.inv == s.inv && s'.pay == s.pay
            && 1 in s'.ord.orders && s'.ord.orders[1].status == O.COMPLETED
  {
    DeliveryCompletes(s, PaymentCompleted(1, 4, 20, 9));
  }

  /** An order can be completed: FULFILLED is such a run, with its stock reserved and its payment captured. */
  lemma {:induction false} SomeOrderCompletes()
    ensures ValidRun(FULFILLED)
    ensures var s := Run(FULFILLED);
            && 1 in s.ord.orders && s.ord.orders[1].status == O.COMPLETED
            && HasRow(s.inv.ledger, RESERVE, 1) && 1 in s.pay.payments && s.pay.payments[1].status == P.COMPLETED
  {
    AfterApproved();
    SendAndDeliver(APPROVED, OUTCOME_ROW, ToOrder(PAID_MESSAGE));
    var s :| SameTables(Run(APPROVED), s) && s.marked == {} && EndsIn(FULFILLED, Next(s, ToOrder(PAID_MESSAGE)));
    DeliverCompletion(s);
  }

  lemma {:induction false} NotReleased(steps: seq<Step>, o: OrderId)
    requires ValidRun(steps) && !Compensating(Run(steps), o)
    ensures !HasRow(Run(steps).inv.ledger, RELEASE, o)
  {
    RunSafe(steps);
    assert LedgerOk(Run(steps), o);
    RowsOfEmptyIff(Run(steps).inv.ledger, RELEASE, o);
  }

  lemma {:induction false} LinesDemandTwo()
    ensures Demand(Items(LINES), 7) == 2
  {
    assert LINES[..0] == [] && ITEMS[..0] == [];
    assert Items(LINES) == ITEMS;
  }

  lemma {:induction false} TimeoutThenPaid(s: Sys)
    requires s.pay == P.EMPTY && O.Running(s.ord, 1) && 1 in s.ord.orders
    ensures var s' := Next(Next(s, Client(O.Timeout(1))), ToPayment(CHARGE_MESSAGE, P.Approved(9)));
            && s'.inv == s.inv && !Compensating(s', 1)
            && 1 in s'.ord.orders && s'.ord.orders[1].status == O.FAILED
            && s'.ord.orders[1].lines == s.ord.orders[1].lines
            && 1 in s'.pay.payments && s'.pay.payments[1].status == P.COMPLETED
  {
    TimeoutAborts(s.ord, 1);
  }

  lemma {:induction false} LateChargeStrands()
    ensures ValidRun(LATE_CHARGE)
    ensures var s := Run(LATE_CHARGE);
            Stranded(s, 1) && s.ord.orders[1].lines == LINES && s.pay.payments[1].status == P.COMPLETED
  {
    AfterCharge();
    TimeoutThenPaid(Run(CHARGED));
    RunTwo(CHARGED, Client(O.Timeout(1)), ToPayment(CHARGE_MESSAGE, P.Approved(9)));
    NotReleased(LATE_CHARGE, 1);
  }

  /**
   * A timed-out order can be stranded: LATE_CHARGE is such a run. In every continuation of it the order stays FAILED
   * and two units stay reserved, and without a refund command from outside the payment stays COMPLETED.
   */
  lemma {:induction false} TimeoutStrandsStockAndMoney(more: seq<Step>)
    requires ValidRun(LATE_CHARGE + more)
    ensures ValidRun(LATE_CHARGE) && Stranded(Run(LATE_CHARGE), 1)
    ensures var s := Run(LATE_CHARGE + more);
            && 1 in s.ord.orders && s.ord.orders[1].status == O.FAILED && Holding(s, 1) && ReservedOf(s, 7) >= 2
            && 1 in s.pay.payments
            && s.pay.payments[1].status == if RefundCommand(1, false) in more then P.REFUNDED else P.COMPLETED
  {
    LateChargeStrands();
    StrandedForGood(LATE_CHARGE, more, 1, 7);
    LinesDemandTwo();
  }

  lemma {:induction false} FailureCompensates(db: O.OrderDb, o: OrderId)
    requires O.Running(db, o) && o in db.orders
    ensures var db' := O.OrderNext(db, O.OnPaymentFailed(o, "payment_declined"));
            && o in db'.sagas && db'.sagas[o].step == O.COMPENSATING
            && o in db'.orders && db'.orders[o] == db.orders[o].(status := O.FAILED)
  {
  }

  lemma {:induction false} DeliverDecline(s: Sys)
    requires s.pay == P.EMPTY
    ensures var s' := Next(s, ToPayment(PaymentCharge(1, 4, 20), P.Declined(None)));
            && s'.ord == s.ord && s'.inv == s.inv && s'.marked == s.marked
            && RowExists(s', OUTCOME_ROW) && EventOf(s', OUTCOME_ROW) == PaymentFailed(1, 4, 20, None)
  {
  }

  lemma {:induction false} DeliverFailure(s: Sys)
    requires O.Running(s.ord, 1) && 1 in s.ord.orders && s.ord.orders[1].lines == LINES
    ensures var s' := Next(s, ToOrder(PaymentFailed(1, 4, 20, None)));
            && s'.inv == s.inv && Compensating(s', 1)
            && 1 in s'.ord.orders && s'.ord.orders[1].status == O.FAILED && s'.ord.orders[1].lines == LINES
  {
    FailureCompensates(s.ord, 1);
  }

  /** The order still runs, its charge was refused, and the failure is in the outbox. */
  lemma {:induction false} AfterRefused()
    ensures var s := Run(REFUSED);
            && ValidRun(REFUSED) && s.marked == {} && !HasRow(s.inv.ledger, RELEASE, 1)
            && O.Running(s.ord, 1) && 1 in s.ord.orders && s.ord.orders[1].lines == LINES
            && RowExists(s, OUTCOME_ROW) && EventOf(s, OUTCOME_ROW) == FAILED_MESSAGE
  {
    AfterCharge();
    StillNotReleased();
    RunSnoc(CHARGED, ToPayment(CHARGE_MESSAGE, P.Declined(None)));
    DeliverDecline(Run(CHARGED));
  }

  lemma {:induction false} DeclinedCompensates()
    ensures ValidRun(DECLINED)
    ensures var s := Run(DECLINED);
            && 1 in s.ord.orders && s.ord.orders[1].status == O.FAILED && s.ord.orders[1].lines == LINES
            && Compensating(s, 1) && !HasRow(s.inv.ledger, RELEASE, 1)
  {
    AfterRefused();
    SendAndDeliver(REFUSED, OUTCOME_ROW, ToOrder(FAILED_MESSAGE));
    var s :| SameTables(Run(REFUSED), s) && s.marked == {} && EndsIn(DECLINED, Next(s, ToOrder(FAILED_MESSAGE)));
    DeliverFailure(s);
  }

  lemma {:induction false} StillNotReleased()
    ensures !HasRow(Run(CHARGED).inv.ledger, RELEASE, 1)
  {
    AfterCharge();
    RunSafe(CHARGED);
    RunningIsNotCompensating(Run(CHARGED), 1);
    NotReleased(CHARGED, 1);
  }

  lemma {:induction false} RunningIsNotCompensating(s: Sys, o: OrderId)
    requires Inv(s) && o in s.ord.orders && O.Running(s.ord, o)
    ensures !Compensating(s, o)
  {
    assert O.OrderOk(s.ord, o);
  }

  /**
   * A declined order can lose its stock too: DECLINED compensates, and its release command can be sent, marked and
   * lost. In every continuation after that, two units stay reserved.
   */
  lemma {:induction false} LostReleaseStrandsStock() returns (lost: seq<Step>)
    ensures ValidRun(DECLINED + lost) && ReleaseLost(Run(DECLINED + lost), 1)
    ensures forall more | ValidRun(DECLINED + lost + more) ::
              Holding(Run(DECLINED + lost + more), 1) && ReservedOf(Run(DECLINED + lost + more), 7) >= 2
  {
    DeclinedCompensates();
    lost := ReleaseCanBeLost(DECLINED, 1);
    forall more | ValidRun(DECLINED + lost + more)
      ensures Holding(Run(DECLINED + lost + more), 1) && ReservedOf(Run(DECLINED + lost + more), 7) >= 2
    {
      LostReleaseHolds(lost, more);
    }
  }

  lemma {:induction false} LostReleaseHolds(lost: seq<Step>, more: seq<Step>)
    requires ValidRun(DECLINED + lost + more) && ReleaseLost(Run(DECLINED + lost), 1)
    ensures Holding(Run(DECLINED + lost + more), 1) && ReservedOf(Run(DECLINED + lost + more), 7) >= 2
  {
    DeclinedCompensates();
    RunSafe(DECLINED);
    CompensatingHasEnded(Run(DECLINED), 1);
    Associative(DECLINED, lost, more);
    RunAppendEnded(DECLINED, lost + more, 1);
    ReleaseLostForGood(DECLINED + lost, more, 1, 7);
    LinesDemandTwo();
  }
}
