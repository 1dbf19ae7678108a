/** payment-service: one payment per order, charged and refunded idempotently. */
module Payment {
  import opened Common
  import opened Events

  datatype PaymentStatus = PENDING | COMPLETED | FAILED | REFUNDED

  datatype PaymentRow = PaymentRow(user: UserId, amount: Money, status: PaymentStatus, failureReason: Option<string>)

  datatype PaymentDb = PaymentDb(payments: map<OrderId, PaymentRow>, outbox: seq<Event>)

  const EMPTY := PaymentDb(map[], [])

  /** What the provider does with a charge; throwing covers the refusal of the mock in production. */
  datatype ChargeResult = Approved(transaction: nat) | Declined(reason: Option<string>) | Throws

  function ChargeNext(db: PaymentDb, o: OrderId, user: UserId, amount: Money, result: ChargeResult): PaymentDb {
    if o in db.payments && db.payments[o].status != PENDING then db
    else
      var payment := if o in db.payments then db.payments[o] else PaymentRow(user, amount, PENDING, None);
      match result
      case Approved(t) =>
        PaymentDb(
          db.payments[o := payment.(status := COMPLETED)],
          db.outbox + [PaymentCompleted(o, user, amount, t)])
      case Declined(r) =>
        PaymentDb(
          db.payments[o := payment.(status := FAILED, failureReason := r)],
          db.outbox + [PaymentFailed(o, user, amount, r)])
      case Throws => db
  }

  function RefundNext(db: PaymentDb, o: OrderId, providerThrows: bool): PaymentDb {
    if o !in db.payments || db.payments[o].status != COMPLETED || providerThrows then db
    else
      var payment := db.payments[o];
      PaymentDb(
        db.payments[o := payment.(status := REFUNDED)],
        db.outbox + [PaymentRefunded(o, payment.user, payment.amount)])
  }

  datatype PaymentOp =
    | Charge(order: OrderId, user: UserId, amount: Money, result: ChargeResult)
    | Refund(order: OrderId, providerThrows: bool)

  function PaymentNext(db: PaymentDb, op: PaymentOp): PaymentDb {
    match op
    case Charge(o, user, amount, result) => ChargeNext(db, o, user, amount, result)
    case Refund(o, throws) => RefundNext(db, o, throws)
  }

  function PaymentRun(db: PaymentDb, ops: seq<PaymentOp>): PaymentDb {
    if ops == [] then db
    else PaymentNext(PaymentRun(db, ops[..|ops| - 1]), ops[|ops| - 1])
  }

  class PaymentService {
    var payments: map<OrderId, PaymentRow>
    var outbox: seq<Event>

    constructor ()
      ensures Db() == EMPTY
    {
      payments, outbox := map[], [];
    }

    ghost function Db(): PaymentDb
      reads this
    {
      PaymentDb(payments, outbox)
    }

    /** Saves the row as PENDING, asks the provider, and saves the outcome, all in one transaction. */
    method ChargeOrder(o: OrderId, user: UserId, amount: Money, result: ChargeResult)
      modifies this
      ensures Db() == ChargeNext(old(Db()), o, user, amount, result)
      ensures (o in old(payments) && old(payments)[o].status != PENDING) || result.Throws? ==> unchanged(this)
      ensures !(o in old(payments) && old(payments)[o].status != PENDING) && !result.Throws? ==>
        && payments.Keys == old(payments).Keys + {o}
        && (forall q | q in old(payments) && q != o :: payments[q] == old(payments)[q])
        && (if o in old(payments)
            then payments[o].user == old(payments)[o].user && payments[o].amount == old(payments)[o].amount
            else payments[o].user == user && payments[o].amount == amount)
      ensures !(o in old(payments) && old(payments)[o].status != PENDING) && result.Approved? ==>
        && payments[o].status == COMPLETED
        && payments[o].failureReason == (if o in old(payments) then old(payments)[o].failureReason else None)
        && outbox == old(outbox) + [PaymentCompleted(o, user, amount, result.transaction)]
      ensures !(o in old(payments) && old(payments)[o].status != PENDING) && result.Declined? ==>
        && payments[o].status == FAILED && payments[o].failureReason == result.reason
        && outbox == old(outbox) + [PaymentFailed(o, user, amount, result.reason)]
    {
      if o in payments && payments[o].status != PENDING {
        return;
      }
      var payments0 := payments;
      if o !in payments {
        payments := payments[o := PaymentRow(user, amount, PENDING, None)];
      }
      match result {
        case Approved(t) =>
          payments := payments[o := payments[o].(status := COMPLETED)];
          outbox := outbox + [PaymentCompleted(o, user, amount, t)];
        case Declined(r) =>
          payments := payments[o := payments[o].(status := FAILED, failureReason := r)];
          outbox := outbox + [PaymentFailed(o, user, amount, r)];
        case Throws =>
          payments := payments0; // rollbackTransaction
      }
    }

    method RefundOrder(o: OrderId, providerThrows: bool)
      modifies this
      ensures Db() == RefundNext(old(Db()), o, providerThrows)
      ensures o in old(payments) && old(payments)[o].status == COMPLETED && !providerThrows ==>
        && payments == old(payments)[o := old(payments)[o].(status := REFUNDED)]
        && outbox == old(outbox) + [PaymentRefunded(o, old(payments)[o].user, old(payments)[o].amount)]
      ensures !(o in old(payments) && old(payments)[o].status == COMPLETED && !providerThrows) ==> unchanged(this)
    {
      if o !in payments || payments[o].status != COMPLETED {
        return;
      }
      if providerThrows {
        return; // rollbackTransaction
      }
      payments := payments[o := payments[o].(status := REFUNDED)];
      outbox := outbox + [PaymentRefunded(o, payments[o].user, payments[o].amount)];
    }
  }

  // ---- At most one charge, and where the money is ----

  /** The events the service emitted about order o, in order. */
  function Trail(outbox: seq<Event>, o: OrderId): seq<Event> {
    if outbox == [] then []
    else
      var n := |outbox| - 1;
      var e := outbox[n];
      Trail(outbox[..n], o) + if IsOutcome(e, o) then [e] else []
  }

  predicate IsOutcome(e: Event, o: OrderId) {
    (e.PaymentCompleted? || e.PaymentFailed? || e.PaymentRefunded?) && e.order == o
  }

  lemma {:induction false} TrailSnoc(outbox: seq<Event>, e: Event, o: OrderId)
    ensures Trail(outbox + [e], o) == Trail(outbox, o) + if IsOutcome(e, o) then [e] else []
  {
    assert (outbox + [e])[..|outbox|] == outbox;
  }

  predicate IsCompletion(e: Event, o: OrderId, row: PaymentRow) {
    e.PaymentCompleted? && e.order == o && e.user == row.user && e.amount == row.amount
  }

  /** The emitted events are exactly the ones the row's status calls for. */
  predicate TrailMatches(trail: seq<Event>, o: OrderId, row: PaymentRow) {
    match row.status
    case PENDING => false
    case COMPLETED => |trail| == 1 && IsCompletion(trail[0], o, row)
    case FAILED => trail == [PaymentFailed(o, row.user, row.amount, row.failureReason)]
    case REFUNDED =>
      |trail| == 2 && IsCompletion(trail[0], o, row) && trail[1] == PaymentRefunded(o, row.user, row.amount)
  }

  ghost predicate PaymentInv(db: PaymentDb) {
    forall o: OrderId ::
      if o in db.payments then TrailMatches(Trail(db.outbox, o), o, db.payments[o])
      else Trail(db.outbox, o) == []
  }

  lemma {:induction false} PaymentStepKeepsInv(db: PaymentDb, op: PaymentOp)
    requires PaymentInv(db)
    ensures PaymentInv(PaymentNext(db, op))
  {
    var db' := PaymentNext(db, op);
    if db' != db {
      var e := db'.outbox[|db.outbox|];
      assert db'.outbox == db.outbox + [e];
      forall o: OrderId
        ensures if o in db'.payments then TrailMatches(Trail(db'.outbox, o), o, db'.payments[o])
                else Trail(db'.outbox, o) == []
      {
        TrailSnoc(db.outbox, e, o);
        if o != op.order {
          assert Trail(db'.outbox, o) == Trail(db.outbox, o);
        }
      }
    }
  }

  /**
   * However often and with whatever arguments commands are repeated, no payment is left PENDING, and each
   * order has at most one row with at most one charge outcome and at most one refund, in that order.
   */
  lemma {:induction false} OneOutcomePerOrder(ops: seq<PaymentOp>)
    ensures PaymentInv(PaymentRun(EMPTY, ops))
    decreases |ops|
  {
    if ops != [] {
      OneOutcomePerOrder(ops[..|ops| - 1]);
      PaymentStepKeepsInv(PaymentRun(EMPTY, ops[..|ops| - 1]), ops[|ops| - 1]);
    }
  }

  lemma {:induction false} HowManyInTrail(outbox: seq<Event>, o: OrderId, f: Event -> bool)
    requires forall e :: f(e) ==> IsOutcome(e, o)
    ensures HowMany(outbox, f) == HowMany(Trail(outbox, o), f)
    decreases |outbox|
  {
    if outbox != [] {
      var n := |outbox| - 1;
      HowManyInTrail(outbox[..n], o, f);
      if IsOutcome(outbox[n], o) {
        HowManySnoc(Trail(outbox[..n], o), outbox[n], f);
      } else {
        assert Trail(outbox[..n], o) + [] == Trail(outbox[..n], o);
      }
    }
  }

  lemma {:induction false} HowManyOfTwo(trail: seq<Event>, f: Event -> bool)
    requires |trail| <= 2
    ensures HowMany(trail, f) ==
      (if |trail| > 0 && f(trail[0]) then 1 else 0) + (if |trail| > 1 && f(trail[1]) then 1 else 0)
  {
    if |trail| == 1 {
      assert trail == [] + [trail[0]];
      HowManySnoc([], trail[0], f);
    } else if |trail| == 2 {
      assert trail == [trail[0]] + [trail[1]] && [trail[0]] == [] + [trail[0]];
      HowManySnoc([], trail[0], f);
      HowManySnoc([trail[0]], trail[1], f);
    }
  }

  /** In every run, how many outcomes of each kind were announced for an order. */
  lemma {:induction false} OutcomesAre(ops: seq<PaymentOp>, o: OrderId)
    ensures var db := PaymentRun(EMPTY, ops);
            var paid := o in db.payments && (db.payments[o].status == COMPLETED || db.payments[o].status == REFUNDED);
            && (o in db.payments ==> db.payments[o].status != PENDING)
            && HowMany(db.outbox, (e: Event) => e.PaymentCompleted? && e.order == o) == (if paid then 1 else 0)
            && HowMany(db.outbox, (e: Event) => e.PaymentFailed? && e.order == o) ==
                 (if o in db.payments && db.payments[o].status == FAILED then 1 else 0)
            && HowMany(db.outbox, (e: Event) => e.PaymentRefunded? && e.order == o) ==
                 (if o in db.payments && db.payments[o].status == REFUNDED then 1 else 0)
  {
    OneOutcomePerOrder(ops);
    var db := PaymentRun(EMPTY, ops);
    SettledRows(db, o);
    OutcomeCount(db, o, (e: Event) => e.PaymentCompleted? && e.order == o);
    OutcomeCount(db, o, (e: Event) => e.PaymentFailed? && e.order == o);
    OutcomeCount(db, o, (e: Event) => e.PaymentRefunded? && e.order == o);
  }

  lemma {:induction false} OutcomeCount(db: PaymentDb, o: OrderId, f: Event -> bool)
    requires PaymentInv(db) && forall e :: f(e) ==> IsOutcome(e, o)
    ensures var trail := Trail(db.outbox, o);
            && (if o in db.payments then TrailMatches(trail, o, db.payments[o]) else trail == [])
            && |trail| <= 2
            && HowMany(db.outbox, f) ==
                 (if |trail| > 0 && f(trail[0]) then 1 else 0) + (if |trail| > 1 && f(trail[1]) then 1 else 0)
  {
    HowManyInTrail(db.outbox, o, f);
    HowManyOfTwo(Trail(db.outbox, o), f);
  }

  /** And with which user and amount. */
  lemma {:induction false} OutcomesName(ops: seq<PaymentOp>, o: OrderId, e: Event)
    requires e in PaymentRun(EMPTY, ops).outbox
    requires (e.PaymentCompleted? || e.PaymentFailed? || e.PaymentRefunded?) && e.order == o
    ensures var payments := PaymentRun(EMPTY, ops).payments;
            o in payments && e.user == payments[o].user && e.amount == payments[o].amount
  {
    OneOutcomePerOrder(ops);
    InTrail(PaymentRun(EMPTY, ops).outbox, o, e);
    var db := PaymentRun(EMPTY, ops);
    assert if o in db.payments then TrailMatches(Trail(db.outbox, o), o, db.payments[o]) else Trail(db.outbox, o) == [];
  }

  lemma {:induction false} InTrail(outbox: seq<Event>, o: OrderId, e: Event)
    requires e in outbox && IsOutcome(e, o)
    ensures e in Trail(outbox, o)
    decreases |outbox|
  {
    if e != outbox[|outbox| - 1] {
      assert e in outbox[..|outbox| - 1];
      InTrail(outbox[..|outbox| - 1], o, e);
    }
  }

  /** The moves a settled status may make. */
  predicate Follows(before: PaymentStatus, after: PaymentStatus) {
    before == after || (before == COMPLETED && after == REFUNDED)
  }

  /** Between two states, o's payment persists with its user and amount and a forward status. */
  predicate Moved(before: PaymentDb, after: PaymentDb, o: OrderId) {
    o in before.payments ==>
      && o in after.payments
      && after.payments[o].user == before.payments[o].user
      && after.payments[o].amount == before.payments[o].amount
      && Follows(before.payments[o].status, after.payments[o].status)
  }

  /** Whose payment it is, and how much, is fixed by the charge that created it. */
  lemma {:induction false} PartiesAfter(db: PaymentDb, op: PaymentOp, o: OrderId)
    requires o in PaymentNext(db, op).payments
    ensures var row := PaymentNext(db, op).payments[o];
            if o in db.payments then row.user == db.payments[o].user && row.amount == db.payments[o].amount
            else op.Charge? && op.order == o && row.user == op.user && row.amount == op.amount
  {
  }

  /** No row stays PENDING once a transaction is over. */
  lemma {:induction false} SettledRows(db: PaymentDb, o: OrderId)
    requires PaymentInv(db)
    ensures o in db.payments ==> db.payments[o].status != PENDING
  {
    assert o in db.payments ==> TrailMatches(Trail(db.outbox, o), o, db.payments[o]);
  }

  lemma {:induction false} StepMovesForward(db: PaymentDb, op: PaymentOp, o: OrderId)
    requires PaymentInv(db)
    ensures Moved(db, PaymentNext(db, op), o)
  {
    assert o in db.payments ==> db.payments[o].status != PENDING;
  }

  /** Along any run a payment keeps its user and amount, and only moves from COMPLETED to REFUNDED. */
  lemma {:induction false} PaymentMovesForward(ops: seq<PaymentOp>, k: nat, o: OrderId)
    requires k <= |ops|
    ensures Moved(PaymentRun(EMPTY, ops[..k]), PaymentRun(EMPTY, ops), o)
    decreases |ops|
  {
    if k == |ops| {
      assert ops[..k] == ops;
    } else {
      var n := |ops| - 1;
      assert ops[..n][..k] == ops[..k];
      PaymentMovesForward(ops[..n], k, o);
      OneOutcomePerOrder(ops[..n]);
      StepMovesForward(PaymentRun(EMPTY, ops[..n]), ops[n], o);
    }
  }

  /** A second charge of a settled order changes nothing at all. */
  lemma {:induction false} ChargeTwice(
    ops: seq<PaymentOp>, o: OrderId, user: UserId, amount: Money, result: ChargeResult)
    requires o in PaymentRun(EMPTY, ops).payments
    ensures ChargeNext(PaymentRun(EMPTY, ops), o, user, amount, result) == PaymentRun(EMPTY, ops)
  {
    OneOutcomePerOrder(ops);
  }

  /** Money taken minus money given back, as the emitted events report it. */
  function NetMoney(outbox: seq<Event>): Money {
    if outbox == [] then 0
    else
      var e := outbox[|outbox| - 1];
      NetMoney(outbox[..|outbox| - 1]) +
      if e.PaymentCompleted? then e.amount else if e.PaymentRefunded? then -e.amount else 0
  }

  ghost function Captured(payments: map<OrderId, PaymentRow>): map<OrderId, int> {
    map o | o in payments :: if payments[o].status == COMPLETED then payments[o].amount else 0
  }

  lemma {:induction false} NetMoneySnoc(outbox: seq<Event>, e: Event)
    ensures NetMoney(outbox + [e]) ==
      NetMoney(outbox) + if e.PaymentCompleted? then e.amount else if e.PaymentRefunded? then -e.amount else 0
  {
    assert (outbox + [e])[..|outbox|] == outbox;
  }

  lemma {:induction false} CapturedUpdate(payments: map<OrderId, PaymentRow>, o: OrderId, row: PaymentRow)
    ensures Sum(Captured(payments[o := row])) - Sum(Captured(payments)) ==
              (if row.status == COMPLETED then row.amount else 0) -
              (if o in payments && payments[o].status == COMPLETED then payments[o].amount else 0)
  {
    var v := if row.status == COMPLETED then row.amount else 0;
    assert Captured(payments[o := row]) == Captured(payments)[o := v];
    SumUpdate(Captured(payments), o, v);
  }

  lemma {:induction false} StepConservesMoney(db: PaymentDb, op: PaymentOp)
    requires op.order in db.payments ==> db.payments[op.order].status != PENDING
    ensures NetMoney(PaymentNext(db, op).outbox) - NetMoney(db.outbox)
         == Sum(Captured(PaymentNext(db, op).payments)) - Sum(Captured(db.payments))
  {
    var db' := PaymentNext(db, op);
    if db' != db {
      NetMoneySnoc(db.outbox, db'.outbox[|db.outbox|]);
      CapturedUpdate(db.payments, op.order, db'.payments[op.order]);
    }
  }

  /** Conservation: what was completed minus what was refunded is what the table still holds as COMPLETED. */
  lemma {:induction false} MoneyIsConserved(ops: seq<PaymentOp>)
    ensures NetMoney(PaymentRun(EMPTY, ops).outbox) == Sum(Captured(PaymentRun(EMPTY, ops).payments))
    decreases |ops|
  {
    if ops == [] {
      assert Captured(EMPTY.payments) == map[];
    } else {
      var n := |ops| - 1;
      MoneyIsConserved(ops[..n]);
      OneOutcomePerOrder(ops[..n]);
      var db := PaymentRun(EMPTY, ops[..n]);
      assert ops[n].order in db.payments ==> db.payments[ops[n].order].status != PENDING;
      StepConservesMoney(db, ops[n]);
    }
  }
}
