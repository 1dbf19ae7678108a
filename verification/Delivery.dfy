/** What relays and the network can do to a message, and what that means for orders that wait for one. */
module Delivery {
  import opened Common
  import opened Events
  import opened Ledger
  import opened System
  import opened Guarantees
  import I = Inventory
  import O = OrderSaga
  import P = Payment
  import R = Relay

  // ---- Messages in flight ----

  /** A pass can still send this row: it is unmarked, or a pass has it in its hands unsent. */
  predicate Sendable(s: Sys, row: RowId, e: Event) {
    RowExists(s, row) && EventOf(s, row) == e && (row !in s.marked || Hold(row, false) in s.held)
  }

  /** The message is on the network or may still get there. */
  ghost predicate InFlight(s: Sys, e: Event) {
    e in s.net || exists row: RowId :: Sendable(s, row, e)
  }

  /** The step writes an outbox row with this message. */
  ghost predicate Emits(s: Sys, step: Step, service: Service, e: Event)
    requires Outbox(s, service) <= Outbox(Next(s, step), service)
  {
    e in Outbox(Next(s, step), service)[|Outbox(s, service)|..]
  }

  lemma {:induction false} OutboxesGrow(s: Sys, step: Step, service: Service)
    ensures Outbox(s, service) <= Outbox(Next(s, step), service)
  {
    match step
    case Client(op) => O.OutboxGrows(s.ord, op);
    case ToOrder(e) => if OrderDispatch(e).Some? { O.OutboxGrows(s.ord, OrderDispatch(e).value); }
    case _ =>
  }

  lemma {:induction false} HeldBefore(s: Sys, step: Step, row: RowId)
    requires Enabled(s, step)
    ensures row !in Next(s, step).marked ==> row !in s.marked
    ensures Hold(row, false) in Next(s, step).held ==> Hold(row, false) in s.held || row !in s.marked
  {
    match step
    case Pick(_) =>
    case Send(_) =>
    case Mark(_) =>
    case Abandon(_) =>
    case _ =>
  }

  lemma {:induction false} SendableBefore(s: Sys, step: Step, row: RowId, e: Event)
    requires Enabled(s, step) && Sendable(Next(s, step), row, e)
    requires Outbox(s, row.service) <= Outbox(Next(s, step), row.service)
    ensures Sendable(s, row, e) || Emits(s, step, row.service, e)
  {
    HeldBefore(s, step, row);
    InPrefixOrNew(Outbox(s, row.service), Outbox(Next(s, step), row.service), row.index);
  }

  lemma {:induction false} InPrefixOrNew(before: seq<Event>, after: seq<Event>, i: nat)
    requires before <= after && i < |after|
    ensures if i < |before| then after[i] == before[i] else after[i] in after[|before|..]
  {
    if i >= |before| {
      assert after[|before|..][i - |before|] == after[i];
    }
  }

  /** Out of flight is for good, unless the message is written again. */
  lemma {:induction false} StaysLost(s: Sys, step: Step, e: Event)
    requires Enabled(s, step) && !InFlight(s, e)
    requires forall service ::
      Outbox(s, service) <= Outbox(Next(s, step), service) && !Emits(s, step, service, e)
    ensures !InFlight(Next(s, step), e)
  {
    if step.Send? && RowExists(s, step.row) && EventOf(s, step.row) == e {
      assert Sendable(s, step.row, e);
    }
    forall row: RowId ensures !Sendable(Next(s, step), row, e) {
      if Sendable(Next(s, step), row, e) { SendableBefore(s, step, row, e); }
    }
  }

  /** A message in flight can be put on the network without anything else happening. */
  lemma {:induction false} PutOnNet(steps: seq<Step>, e: Event) returns (more: seq<Step>)
    requires ValidRun(steps) && InFlight(Run(steps), e)
    ensures ValidRun(steps + more) && SameTables(Run(steps), Run(steps + more)) && e in Run(steps + more).net
  {
    var s := Run(steps);
    if e in s.net {
      more := [];
      assert steps + more == steps;
    } else {
      var row :| Sendable(s, row, e);
      if Hold(row, false) in s.held {
        more := [Send(row)];
        RunSnoc(steps, Send(row));
      } else {
        more := [Pick(row), Send(row)];
        PickAndSend(s, row);
        RunTwo(steps, Pick(row), Send(row));
      }
    }
  }

  // ---- Everything in flight can be lost ----

  /** No pass can send this row any more. */
  predicate Settled(s: Sys, row: RowId) {
    row in s.marked && Hold(row, false) !in s.held
  }

  /** The tables are the same, and what was settled still is. */
  ghost predicate Calmer(s: Sys, s': Sys) {
    SameTables(s, s') && forall row: RowId :: Settled(s, row) ==> Settled(s', row)
  }

  /** Passes drop a row from their hands one after the other. */
  lemma {:induction false} AbandonIsCalm(s: Sys, row: RowId)
    requires Hold(row, false) in s.held
    ensures var s' := Next(s, Abandon(Hold(row, false)));
            Calmer(s, s') && s'.marked == s.marked && s'.held[Hold(row, false)] < s.held[Hold(row, false)]
  {
  }

  lemma {:induction false} DrainRow(steps: seq<Step>, row: RowId) returns (more: seq<Step>)
    requires ValidRun(steps) && row in Run(steps).marked
    ensures ValidRun(steps + more) && Calmer(Run(steps), Run(steps + more)) && Settled(Run(steps + more), row)
    decreases Run(steps).held[Hold(row, false)]
  {
    if Hold(row, false) !in Run(steps).held {
      more := [];
      assert steps + more == steps;
    } else {
      var drop := Abandon(Hold(row, false));
      RunSnoc(steps, drop);
      AbandonIsCalm(Run(steps), row);
      var rest := DrainRow(steps + [drop], row);
      more := [drop] + rest;
      Associative(steps, [drop], rest);
      CalmerTwice(Run(steps), Run(steps + [drop]), Run(steps + more));
    }
  }

  /** A row that no pass has marked yet is sent and marked. */
  lemma {:induction false} MarkRow(steps: seq<Step>, row: RowId) returns (more: seq<Step>)
    requires ValidRun(steps) && RowExists(Run(steps), row)
    ensures ValidRun(steps + more) && Calmer(Run(steps), Run(steps + more)) && row in Run(steps + more).marked
  {
    if row in Run(steps).marked {
      more := [];
      assert steps + more == steps;
    } else {
      more := RowSteps(row, R.Delivered);
      RowStepsRun(steps, row, R.Delivered);
    }
  }

  lemma {:induction false} SettleRow(steps: seq<Step>, row: RowId) returns (more: seq<Step>)
    requires ValidRun(steps) && RowExists(Run(steps), row)
    ensures ValidRun(steps + more) && Calmer(Run(steps), Run(steps + more)) && Settled(Run(steps + more), row)
  {
    var mark := MarkRow(steps, row);
    var drain := DrainRow(steps + mark, row);
    more := mark + drain;
    Associative(steps, mark, drain);
    CalmerTwice(Run(steps), Run(steps + mark), Run(steps + more));
  }

  /** The first n rows of a service are settled. */
  predicate AllSettled(s: Sys, service: Service, n: nat) {
    forall i: nat | i < n :: Settled(s, RowId(service, i))
  }

  lemma {:induction false} CalmerKeeps(s: Sys, s': Sys, service: Service, n: nat)
    requires Calmer(s, s') && AllSettled(s, service, n)
    ensures AllSettled(s', service, n)
  {
  }

  lemma {:induction false} CalmerTwice(a: Sys, b: Sys, c: Sys)
    requires Calmer(a, b) && Calmer(b, c)
    ensures Calmer(a, c)
  {
  }

  lemma {:induction false} OneMoreSettled(s: Sys, service: Service, n: nat)
    requires n > 0 && AllSettled(s, service, n - 1) && Settled(s, RowId(service, n - 1))
    ensures AllSettled(s, service, n)
  {
  }

  lemma {:induction false} SettleRows(steps: seq<Step>, service: Service, n: nat) returns (more: seq<Step>)
    requires ValidRun(steps) && n <= |Outbox(Run(steps), service)|
    ensures ValidRun(steps + more) && Calmer(Run(steps), Run(steps + more))
    ensures AllSettled(Run(steps + more), service, n)
    decreases n
  {
    if n == 0 {
      more := [];
      assert steps + more == steps;
    } else {
      var front := SettleRows(steps, service, n - 1);
      var last := SettleRow(steps + front, RowId(service, n - 1));
      more := front + last;
      Associative(steps, front, last);
      CalmerTwice(Run(steps), Run(steps + front), Run(steps + more));
      CalmerKeeps(Run(steps + front), Run(steps + more), service, n - 1);
      OneMoreSettled(Run(steps + more), service, n);
    }
  }

  lemma {:induction false} SettleService(steps: seq<Step>, service: Service) returns (more: seq<Step>)
    requires ValidRun(steps)
    ensures ValidRun(steps + more) && Calmer(Run(steps), Run(steps + more))
    ensures AllSettled(Run(steps + more), service, |Outbox(Run(steps + more), service)|)
  {
    more := SettleRows(steps, service, |Outbox(Run(steps), service)|);
  }

  lemma {:induction false} DropIsCalm(s: Sys, e: Event)
    requires e in s.net
    ensures Calmer(s, Next(s, Drop(e))) && |Next(s, Drop(e)).net| < |s.net|
  {
  }

  lemma {:induction false} DropMessages(steps: seq<Step>) returns (more: seq<Step>)
    requires ValidRun(steps)
    ensures ValidRun(steps + more) && Calmer(Run(steps), Run(steps + more)) && Run(steps + more).net == {}
    decreases |Run(steps).net|
  {
    if Run(steps).net == {} {
      more := [];
      assert steps + more == steps;
    } else {
      var e :| e in Run(steps).net;
      RunSnoc(steps, Drop(e));
      DropIsCalm(Run(steps), e);
      var rest := DropMessages(steps + [Drop(e)]);
      more := [Drop(e)] + rest;
      Associative(steps, [Drop(e)], rest);
      CalmerTwice(Run(steps), Run(steps + [Drop(e)]), Run(steps + more));
    }
  }

  lemma {:induction false} SettledIsLost(s: Sys, e: Event)
    requires s.net == {} && NothingSendable(s)
    ensures !InFlight(s, e)
  {
    forall row: RowId ensures !Sendable(s, row, e) {
      if RowExists(s, row) {
        assert AllSettled(s, row.service, |Outbox(s, row.service)|);
        assert Settled(s, RowId(row.service, row.index));
      }
    }
  }

  lemma {:induction false} AllSettledAtEnd(s: Sys, a: Sys, b: Sys, c: Sys)
    requires Calmer(s, a) && Calmer(a, b) && Calmer(b, c)
    requires AllSettled(a, ORDERS, |Outbox(a, ORDERS)|)
    requires AllSettled(b, INVENTORY, |Outbox(b, INVENTORY)|)
    requires AllSettled(c, PAYMENTS, |Outbox(c, PAYMENTS)|)
    ensures Calmer(s, c) && NothingSendable(c)
  {
    CalmerTwice(s, a, b);
    CalmerTwice(s, b, c);
    CalmerTwice(a, b, c);
    CalmerKeeps(a, c, ORDERS, |Outbox(a, ORDERS)|);
    CalmerKeeps(b, c, INVENTORY, |Outbox(b, INVENTORY)|);
  }

  predicate NothingSendable(s: Sys) {
    && AllSettled(s, ORDERS, |Outbox(s, ORDERS)|)
    && AllSettled(s, INVENTORY, |Outbox(s, INVENTORY)|)
    && AllSettled(s, PAYMENTS, |Outbox(s, PAYMENTS)|)
  }

  lemma {:induction false} SettleAll(steps: seq<Step>) returns (more: seq<Step>)
    requires ValidRun(steps)
    ensures ValidRun(steps + more) && Calmer(Run(steps), Run(steps + more)) && NothingSendable(Run(steps + more))
  {
    var a := SettleService(steps, ORDERS);
    var b := SettleService(steps + a, INVENTORY);
    Associative(steps, a, b);
    var c := SettleService(steps + (a + b), PAYMENTS);
    Associative(steps, a + b, c);
    more := a + b + c;
    AllSettledAtEnd(Run(steps), Run(steps + a), Run(steps + (a + b)), Run(steps + more));
  }

  lemma {:induction false} NothingInFlight(s: Sys)
    requires s.net == {} && NothingSendable(s)
    ensures forall e :: !InFlight(s, e)
  {
    forall e ensures !InFlight(s, e) { SettledIsLost(s, e); }
  }

  lemma {:induction false} CalmerIsSendable(s: Sys, s': Sys)
    requires Calmer(s, s') && NothingSendable(s)
    ensures NothingSendable(s')
  {
    forall service | AllSettled(s, service, |Outbox(s, service)|)
      ensures AllSettled(s', service, |Outbox(s', service)|)
    {
      CalmerKeeps(s, s', service, |Outbox(s, service)|);
    }
  }

  /** From every state everything in flight may be lost, with no table changed: rows sent and marked, messages gone. */
  lemma {:induction false} AllCanBeLost(steps: seq<Step>) returns (more: seq<Step>)
    requires ValidRun(steps)
    ensures ValidRun(steps + more) && SameTables(Run(steps), Run(steps + more))
    ensures forall e :: !InFlight(Run(steps + more), e)
  {
    var settle := SettleAll(steps);
    var drop := DropMessages(steps + settle);
    more := settle + drop;
    Associative(steps, settle, drop);
    CalmerIsSendable(Run(steps + settle), Run(steps + more));
    NothingInFlight(Run(steps + more));
  }

  // ---- What a relay does with one row ----

  /** What a pass does with one row it has selected. */
  function RowSteps(row: RowId, fate: R.Fate): seq<Step> {
    match fate
    case Delivered => [Pick(row), Send(row), Mark(row)]
    case SendFails => [Pick(row), Abandon(Hold(row, false))]
    case MarkFails => [Pick(row), Send(row), Abandon(Hold(row, true))]
  }

  /** The system after a pass is done with one row. */
  function AfterRow(s: Sys, row: RowId, fate: R.Fate): Sys
    requires RowExists(s, row)
  {
    s.(net := if fate.SendFails? then s.net else s.net + {EventOf(s, row)},
       marked := if fate.Delivered? then s.marked + {row} else s.marked)
  }

  lemma {:induction false} RunTwo(steps: seq<Step>, a: Step, b: Step)
    requires ValidRun(steps) && Enabled(Run(steps), a) && Enabled(Next(Run(steps), a), b)
    ensures ValidRun(steps + [a, b]) && Run(steps + [a, b]) == Next(Next(Run(steps), a), b)
  {
    RunSnoc(steps, a);
    RunSnoc(steps + [a], b);
    assert steps + [a] + [b] == steps + [a, b];
  }

  lemma {:induction false} RunThree(steps: seq<Step>, a: Step, b: Step, c: Step)
    requires ValidRun(steps) && Enabled(Run(steps), a) && Enabled(Next(Run(steps), a), b)
    requires Enabled(Next(Next(Run(steps), a), b), c)
    ensures ValidRun(steps + [a, b, c]) && Run(steps + [a, b, c]) == Next(Next(Next(Run(steps), a), b), c)
  {
    RunTwo(steps, a, b);
    RunSnoc(steps + [a, b], c);
    assert steps + [a, b] + [c] == steps + [a, b, c];
  }

  lemma {:induction false} PickAndSend(s: Sys, row: RowId)
    requires RowExists(s, row) && row !in s.marked
    ensures var s1 := Next(s, Pick(row));
            && Enabled(s, Pick(row)) && Enabled(s1, Send(row))
            && Next(s1, Send(row)) == s.(held := s.held + multiset{Hold(row, true)}, net := s.net + {EventOf(s, row)})
  {
    assert s.held + multiset{Hold(row, false)} - multiset{Hold(row, false)} == s.held;
  }

  lemma {:induction false} HeldAgain(held: multiset<Hold>, hold: Hold)
    ensures held + multiset{hold} - multiset{hold} == held
  {
  }

  /** A row picked up, sent, and then marked or dropped from the hands. */
  lemma {:induction false} SentRow(s: Sys, row: RowId, marks: bool)
    requires RowExists(s, row) && row !in s.marked
    ensures var s2 := Next(Next(s, Pick(row)), Send(row));
            var last := if marks then Mark(row) else Abandon(Hold(row, true));
            && Enabled(s2, last)
            && Next(s2, last) == AfterRow(s, row, if marks then R.Delivered else R.MarkFails)
  {
    PickAndSend(s, row);
    HeldAgain(s.held, Hold(row, true));
  }

  lemma {:induction false} RowStepsRun(steps: seq<Step>, row: RowId, fate: R.Fate)
    requires ValidRun(steps) && RowExists(Run(steps), row) && row !in Run(steps).marked
    ensures ValidRun(steps + RowSteps(row, fate))
    ensures Run(steps + RowSteps(row, fate)) == AfterRow(Run(steps), row, fate)
  {
    var s := Run(steps);
    PickAndSend(s, row);
    match fate
    case Delivered =>
      SentRow(s, row, true);
      RunThree(steps, Pick(row), Send(row), Mark(row));
    case MarkFails =>
      SentRow(s, row, false);
      RunThree(steps, Pick(row), Send(row), Abandon(Hold(row, true)));
    case SendFails =>
      HeldAgain(s.held, Hold(row, false));
      RunTwo(steps, Pick(row), Abandon(Hold(row, false)));
  }

  /** Where a run leads, if it is a valid one. */
  ghost function Outcome(steps: seq<Step>): Option<Sys> {
    if ValidRun(steps) then Some(Run(steps)) else None
  }

  ghost predicate EndsIn(steps: seq<Step>, end: Sys) {
    Outcome(steps) == Some(end)
  }

  // ---- Ended sagas do not change ----

  lemma {:induction false} StaysFrozen(before: O.OrderDb, s: Sys, step: Step, o: OrderId)
    requires o in before.orders && o in before.sagas && !O.Running(before, o)
    requires O.OrderInv(s.ord) && O.Frozen(before, s.ord, o)
    ensures O.Frozen(before, Next(s, step).ord, o)
  {
    EndedThroughStep(s, step, o);
  }

  lemma {:induction false} HasSaga(steps: seq<Step>, o: OrderId)
    requires ValidRun(steps) && o in Run(steps).ord.orders
    ensures o in Run(steps).ord.sagas
  {
    RunSafe(steps);
  }

  lemma {:induction false} RunAppendEnded(steps: seq<Step>, more: seq<Step>, o: OrderId)
    requires ValidRun(steps + more)
    requires o in Run(steps).ord.orders && !O.Running(Run(steps).ord, o)
    ensures ValidRun(steps) && o in Run(steps).ord.sagas
    ensures O.Frozen(Run(steps).ord, Run(steps + more).ord, o)
    decreases |more|
  {
    PrefixIsValid(steps, more);
    HasSaga(steps, o);
    if more == [] {
      assert steps + more == steps;
    } else {
      var n := |more| - 1;
      AppendOne(steps, more);
      RunAppendEnded(steps, more[..n], o);
      RunSafe(steps + more[..n]);
      StaysFrozen(Run(steps).ord, Run(steps + more[..n]), more[n], o);
    }
  }

  lemma {:induction false} EndedThroughStep(s: Sys, step: Step, o: OrderId)
    requires O.OrderInv(s.ord) && o in s.ord.orders && !O.Running(s.ord, o)
    ensures o in s.ord.sagas && O.Frozen(s.ord, Next(s, step).ord, o)
  {
    OrderPart(s, step);
    if OrderOpOf(step).Some? { O.EndedStep(s.ord, OrderOpOf(step).value, o); }
  }

  // ---- A failed order's stock ----

  ghost predicate CanRelease(steps: seq<Step>, more: seq<Step>, o: OrderId) {
    ValidRun(steps + more) && HasRow(Run(steps + more).inv.ledger, RELEASE, o)
  }

  lemma {:induction false} OthersCannotRelease(steps: seq<Step>, more: seq<Step>, o: OrderId)
    requires ValidRun(steps) && o in Run(steps).ord.orders && !O.Running(Run(steps).ord, o)
    requires !Compensating(Run(steps), o)
    ensures !CanRelease(steps, more, o)
  {
    if ValidRun(steps + more) {
      RunAppendEnded(steps, more, o);
      RunSafe(steps + more);
      RowsOfEmptyIff(Run(steps + more).inv.ledger, RELEASE, o);
      assert LedgerOk(Run(steps + more), o);
    }
  }

  /** The release command of an order. */
  function ReleaseOf(s: Sys, o: OrderId): Event
    requires o in s.ord.orders
  {
    InventoryRelease(o, ItemsOf(s, o))
  }

  lemma {:induction false} InventorySendsNoRelease(s: Sys, step: Step, o: OrderId, items: seq<Item>)
    requires s.inv.outbox <= Next(s, step).inv.outbox
    ensures InventoryRelease(o, items) !in Next(s, step).inv.outbox[|s.inv.outbox|..]
  {
  }

  lemma {:induction false} PaymentSendsNoRelease(s: Sys, step: Step, o: OrderId, items: seq<Item>)
    requires s.pay.outbox <= Next(s, step).pay.outbox
    ensures InventoryRelease(o, items) !in Next(s, step).pay.outbox[|s.pay.outbox|..]
  {
    PaymentPart(s, step);
  }

  lemma {:induction false} ReleaseNotEmitted(s: Sys, step: Step, service: Service, o: OrderId, items: seq<Item>)
    requires O.OrderInv(s.ord) && o in s.ord.orders && !O.Running(s.ord, o)
    ensures Outbox(s, service) <= Outbox(Next(s, step), service)
    ensures !Emits(s, step, service, InventoryRelease(o, items))
  {
    OutboxesGrow(s, step, service);
    match service
    case ORDERS =>
      OrderPart(s, step);
      if OrderOpOf(step).Some? { EndedEmitsNothing(s.ord, OrderOpOf(step).value, o, items); }
    case INVENTORY => InventorySendsNoRelease(s, step, o, items);
    case PAYMENTS => PaymentSendsNoRelease(s, step, o, items);
  }

  lemma {:induction false} EndedEmitsNothing(db: O.OrderDb, op: O.OrderOp, o: OrderId, items: seq<Item>)
    requires O.OrderInv(db) && o in db.orders && !O.Running(db, o)
    ensures InventoryRelease(o, items) !in O.Emitted(db, op)
  {
    assert O.OrderOk(db, o);
    O.EmitsOwnEvents(db, op);
    if op.order == o { assert O.OrderNext(db, op) == db; }
  }

  /** The release command is lost and the order has no RELEASE row. */
  ghost predicate ReleaseLost(s: Sys, o: OrderId) {
    && o in s.ord.orders && Compensating(s, o) && !HasRow(s.inv.ledger, RELEASE, o)
    && !InFlight(s, ReleaseOf(s, o))
  }

  lemma {:induction false} CompensatingHasEnded(s: Sys, o: OrderId)
    requires Inv(s) && o in s.ord.orders && Compensating(s, o)
    ensures !O.Running(s.ord, o)
  {
    assert O.OrderOk(s.ord, o);
  }

  lemma {:induction false} NetIsOk(s: Sys, e: Event)
    requires Inv(s) && e in s.net
    ensures Emitted(s, e) && EventOk(s, e)
  {
  }

  /** No step delivers a command that is not on the network. */
  lemma {:induction false} NoReleaseDelivered(s: Sys, step: Step, o: OrderId)
    requires step.ToInventory? ==> EventOk(s, step.event)
    requires Enabled(s, step) && o in s.ord.orders && ReleaseOf(s, o) !in s.net
    requires !HasRow(s.inv.ledger, RELEASE, o)
    ensures !HasRow(Next(s, step).inv.ledger, RELEASE, o)
  {
    if StockOp(step).Some? { I.StepLeavesRow(s.inv, StockOp(step).value, o); }
  }

  lemma {:induction false} ReleaseStaysLost(s: Sys, step: Step, o: OrderId)
    requires Inv(s) && Enabled(s, step) && ReleaseLost(s, o)
    ensures ReleaseLost(Next(s, step), o)
  {
    CompensatingHasEnded(s, o);
    EndedThroughStep(s, step, o);
    if step.ToInventory? { NetIsOk(s, step.event); }
    NoReleaseDelivered(s, step, o);
    forall service
      ensures Outbox(s, service) <= Outbox(Next(s, step), service) && !Emits(s, step, service, ReleaseOf(s, o))
    {
      ReleaseNotEmitted(s, step, service, o, ItemsOf(s, o));
    }
    StaysLost(s, step, ReleaseOf(s, o));
  }

  lemma {:induction false} ReleaseLostThrough(steps: seq<Step>, more: seq<Step>, o: OrderId)
    requires ValidRun(steps + more) && ReleaseLost(Run(steps), o)
    ensures ReleaseLost(Run(steps + more), o)
    decreases |more|
  {
    if more == [] {
      assert steps + more == steps;
    } else {
      AppendOne(steps, more);
      ReleaseLostThrough(steps, more[..|more| - 1], o);
      RunSafe(steps + more[..|more| - 1]);
      ReleaseStaysLost(Run(steps + more[..|more| - 1]), more[|more| - 1], o);
    }
  }

  lemma {:induction false} CompensatingHasRow(s: Sys, o: OrderId)
    requires Inv(s) && o in s.ord.orders && Compensating(s, o) && s.ord.orders[o].lines != []
    ensures HasRow(s.inv.ledger, RESERVE, o)
  {
    assert SagaOk(s, o) && PaymentOk(s, o);
    RowsOfEmptyIff(s.inv.ledger, RESERVE, o);
    assert |ReserveRows(o, ItemsOf(s, o))| == |s.ord.orders[o].lines|;
  }

  /** A compensating order whose release command is lost keeps its stock reserved in every continuation. */
  lemma {:induction false} ReleaseLostForGood(steps: seq<Step>, more: seq<Step>, o: OrderId, p: ProductId)
    requires ValidRun(steps + more) && ReleaseLost(Run(steps), o)
    ensures var s := Run(steps + more);
            && ReleaseLost(s, o)
            && (s.ord.orders[o].lines != [] ==> Holding(s, o) && Demand(ItemsOf(s, o), p) <= ReservedOf(s, p))
  {
    ReleaseLostThrough(steps, more, o);
    RunSafe(steps + more);
    var s := Run(steps + more);
    if s.ord.orders[o].lines != [] {
      CompensatingHasRow(s, o);
      StockIsConserved(steps + more, p);
    }
  }

  lemma {:induction false} DeliveryReleases(s: Sys, o: OrderId)
    requires o in s.ord.orders && s.ord.orders[o].lines != []
    ensures HasRow(Next(s, ToInventory(ReleaseOf(s, o))).inv.ledger, RELEASE, o)
  {
    I.StepLeavesRow(s.inv, I.Release(o, ItemsOf(s, o)), o);
    assert |ItemsOf(s, o)| == |s.ord.orders[o].lines|;
  }

  lemma {:induction false} InFlightCanRelease(steps: seq<Step>, o: OrderId)
    requires ValidRun(steps) && o in Run(steps).ord.orders && Run(steps).ord.orders[o].lines != []
    requires InFlight(Run(steps), ReleaseOf(Run(steps), o))
    ensures exists more :: CanRelease(steps, more, o)
  {
    var e := ReleaseOf(Run(steps), o);
    var more := PutOnNet(steps, e);
    RunSnoc(steps + more, ToInventory(e));
    DeliveryReleases(Run(steps + more), o);
    Associative(steps, more, [ToInventory(e)]);
    assert CanRelease(steps, more + [ToInventory(e)], o);
  }

  lemma {:induction false} LostCannotRelease(steps: seq<Step>, more: seq<Step>, o: OrderId)
    requires ReleaseLost(Run(steps), o)
    ensures !CanRelease(steps, more, o)
  {
    if ValidRun(steps + more) { ReleaseLostThrough(steps, more, o); }
  }

  /** Its stock is back, or its release command can still be delivered. */
  ghost predicate Releasable(s: Sys, o: OrderId)
    requires o in s.ord.orders
  {
    Compensating(s, o) && (HasRow(s.inv.ledger, RELEASE, o) || InFlight(s, ReleaseOf(s, o)))
  }

  /**
   * A failed order's stock can come back, now or in some continuation, if and only if the failure went through
   * compensation and the release has been carried out or its command is still in flight. An order that timed out, or
   * was refused and reserved all the same, or whose command was marked as sent and then lost, keeps what it reserved.
   */
  lemma {:induction false} FailedOrderReleasableIff(steps: seq<Step>, o: OrderId)
    requires ValidRun(steps)
    requires o in Run(steps).ord.orders && Run(steps).ord.orders[o].status == O.FAILED
    requires Run(steps).ord.orders[o].lines != []
    ensures (exists more :: CanRelease(steps, more, o)) <==> Releasable(Run(steps), o)
  {
    var s := Run(steps);
    RunSafe(steps);
    assert O.OrderOk(s.ord, o);
    if !Compensating(s, o) {
      forall more ensures !CanRelease(steps, more, o) { OthersCannotRelease(steps, more, o); }
    } else if HasRow(s.inv.ledger, RELEASE, o) {
      assert steps + [] == steps;
      assert CanRelease(steps, [], o);
    } else if InFlight(s, ReleaseOf(s, o)) {
      InFlightCanRelease(steps, o);
    } else {
      forall more ensures !CanRelease(steps, more, o) { LostCannotRelease(steps, more, o); }
    }
  }

  /** Every compensating order whose stock is not back yet can end so: the loss needs no more than one handler error. */
  lemma {:induction false} ReleaseCanBeLost(steps: seq<Step>, o: OrderId) returns (more: seq<Step>)
    requires ValidRun(steps) && o in Run(steps).ord.orders && Compensating(Run(steps), o)
    requires !HasRow(Run(steps).inv.ledger, RELEASE, o)
    ensures ValidRun(steps + more) && ReleaseLost(Run(steps + more), o)
  {
    more := AllCanBeLost(steps);
  }

  // ---- A captured payment's order ----

  predicate CompletionOf(e: Event, o: OrderId) {
    e.PaymentCompleted? && e.order == o
  }

  /** The event that would complete the order may still be delivered. */
  ghost predicate CompletionInFlight(s: Sys, o: OrderId) {
    exists e :: CompletionOf(e, o) && InFlight(s, e)
  }

  /** The payment is captured, the order is not completed, and the event that would complete it is lost. */
  ghost predicate CompletionLost(s: Sys, o: OrderId) {
    && o in s.ord.orders && s.ord.orders[o].status != O.COMPLETED
    && Captured(s, o) && !CompletionInFlight(s, o)
  }

  ghost predicate CanComplete(steps: seq<Step>, more: seq<Step>, o: OrderId) {
    && ValidRun(steps + more)
    && o in Run(steps + more).ord.orders && Run(steps + more).ord.orders[o].status == O.COMPLETED
  }

  lemma {:induction false} CapturedHasSaga(s: Sys, o: OrderId)
    requires Inv(s) && Captured(s, o)
    ensures o in s.ord.orders && o in s.ord.sagas && O.OrderOk(s.ord, o)
  {
    assert PaymentOk(s, o);
  }

  lemma {:induction false} CapturedThroughOp(db: P.PaymentDb, op: P.PaymentOp, o: OrderId)
    requires o in db.payments && db.payments[o].status in {P.COMPLETED, P.REFUNDED}
    ensures var db' := P.PaymentNext(db, op);
            && o in db'.payments && db'.payments[o].status in {P.COMPLETED, P.REFUNDED}
            && db.outbox <= db'.outbox
            && forall e | e in db'.outbox[|db.outbox|..] :: !CompletionOf(e, o)
  {
  }

  /** Once captured, a payment stays so, and no step writes its completion event again. */
  lemma {:induction false} CapturedThroughStep(s: Sys, step: Step, service: Service, o: OrderId, e: Event)
    requires Captured(s, o) && CompletionOf(e, o)
    ensures Captured(Next(s, step), o)
    ensures Outbox(s, service) <= Outbox(Next(s, step), service) && !Emits(s, step, service, e)
  {
    OutboxesGrow(s, step, service);
    PaymentPart(s, step);
    if PaymentOpOf(step).Some? { CapturedThroughOp(s.pay, PaymentOpOf(step).value, o); }
    match service
    case ORDERS =>
      OrderPart(s, step);
      if OrderOpOf(step).Some? { O.EmitsOwnEvents(s.ord, OrderOpOf(step).value); }
    case INVENTORY => InventorySendsNoCompletion(s, step, e);
    case PAYMENTS =>
  }

  lemma {:induction false} InventorySendsNoCompletion(s: Sys, step: Step, e: Event)
    requires s.inv.outbox <= Next(s, step).inv.outbox && e.PaymentCompleted?
    ensures e !in Next(s, step).inv.outbox[|s.inv.outbox|..]
  {
  }

  /** An order is completed only by a delivered completion event. */
  lemma {:induction false} CompletedBy(db: O.OrderDb, op: O.OrderOp, o: OrderId)
    requires o in db.orders && db.orders[o].status != O.COMPLETED && op != O.OnPaymentCompleted(o)
    ensures o in O.OrderNext(db, op).orders && O.OrderNext(db, op).orders[o].status != O.COMPLETED
  {
  }

  lemma {:induction false} NoCompletionDelivered(s: Sys, step: Step, o: OrderId)
    requires Enabled(s, step) && forall e | CompletionOf(e, o) :: e !in s.net
    ensures OrderOpOf(step) != Some(O.OnPaymentCompleted(o))
  {
  }

  lemma {:induction false} CompletionStaysLost(s: Sys, step: Step, o: OrderId)
    requires Enabled(s, step) && CompletionLost(s, o)
    ensures CompletionLost(Next(s, step), o)
  {
    CapturedThroughStep(s, step, PAYMENTS, o, PaymentCompleted(o, 0, 0, 0));
    forall e | CompletionOf(e, o) ensures e !in s.net { assert !InFlight(s, e); }
    NoCompletionDelivered(s, step, o);
    OrderPart(s, step);
    if OrderOpOf(step).Some? { CompletedBy(s.ord, OrderOpOf(step).value, o); }
    forall e | CompletionOf(e, o) ensures !InFlight(Next(s, step), e) {
      forall service
        ensures Outbox(s, service) <= Outbox(Next(s, step), service) && !Emits(s, step, service, e)
      {
        CapturedThroughStep(s, step, service, o, e);
      }
      assert !InFlight(s, e);
      StaysLost(s, step, e);
    }
  }

  lemma {:induction false} CompletionLostThrough(steps: seq<Step>, more: seq<Step>, o: OrderId)
    requires ValidRun(steps + more) && CompletionLost(Run(steps), o)
    ensures CompletionLost(Run(steps + more), o)
    decreases |more|
  {
    if more == [] {
      assert steps + more == steps;
    } else {
      AppendOne(steps, more);
      CompletionLostThrough(steps, more[..|more| - 1], o);
      CompletionStaysLost(Run(steps + more[..|more| - 1]), more[|more| - 1], o);
    }
  }

  /**
   * An order whose payment is captured and whose completion event is lost is never completed in any continuation, its
   * payment stays captured, and its stock stays reserved.
   */
  lemma {:induction false} CompletionLostForGood(steps: seq<Step>, more: seq<Step>, o: OrderId, p: ProductId)
    requires ValidRun(steps + more) && CompletionLost(Run(steps), o)
    ensures var s := Run(steps + more);
            && CompletionLost(s, o)
            && (s.ord.orders[o].lines != [] ==> Holding(s, o) && Demand(ItemsOf(s, o), p) <= ReservedOf(s, p))
  {
    CompletionLostThrough(steps, more, o);
    if Run(steps + more).ord.orders[o].lines != [] {
      CapturedHolds(steps + more, o);
      StockIsConserved(steps + more, p);
    }
  }

  lemma {:induction false} CapturedHolds(steps: seq<Step>, o: OrderId)
    requires ValidRun(steps) && Captured(Run(steps), o)
    requires o in Run(steps).ord.orders && Run(steps).ord.orders[o].lines != []
    ensures Holding(Run(steps), o)
  {
    CompensationIsSound(steps, o);
    var s := Run(steps);
    RowsOfEmptyIff(s.inv.ledger, RESERVE, o);
    RowsOfEmptyIff(s.inv.ledger, RELEASE, o);
    assert |ReserveRows(o, ItemsOf(s, o))| == |s.ord.orders[o].lines|;
  }

  lemma {:induction false} DeliveryCompletes(s: Sys, e: Event)
    requires e.PaymentCompleted? && O.Running(s.ord, e.order) && e.order in s.ord.orders
    ensures var s' := Next(s, ToOrder(e));
            e.order in s'.ord.orders && s'.ord.orders[e.order].status == O.COMPLETED
  {
    assert OrderDispatch(e) == Some(O.OnPaymentCompleted(e.order));
  }

  lemma {:induction false} InFlightCanComplete(steps: seq<Step>, o: OrderId)
    requires ValidRun(steps) && O.Running(Run(steps).ord, o) && o in Run(steps).ord.orders
    requires CompletionInFlight(Run(steps), o)
    ensures exists more :: CanComplete(steps, more, o)
  {
    var e :| CompletionOf(e, o) && InFlight(Run(steps), e);
    var more := PutOnNet(steps, e);
    RunSnoc(steps + more, ToOrder(e));
    DeliveryCompletes(Run(steps + more), e);
    Associative(steps, more, [ToOrder(e)]);
    assert CanComplete(steps, more + [ToOrder(e)], o);
  }

  lemma {:induction false} LostCannotComplete(steps: seq<Step>, more: seq<Step>, o: OrderId)
    requires CompletionLost(Run(steps), o)
    ensures !CanComplete(steps, more, o)
  {
    if ValidRun(steps + more) { CompletionLostThrough(steps, more, o); }
  }

  lemma {:induction false} AbortedIsFailed(s: Sys, o: OrderId)
    requires Inv(s) && o in s.ord.sagas && s.ord.sagas[o].status == O.ABORTED
    ensures o in s.ord.orders && s.ord.orders[o].status == O.FAILED
  {
    assert o in s.ord.orders && O.OrderOk(s.ord, o);
  }

  lemma {:induction false} AbortedCannotComplete(steps: seq<Step>, more: seq<Step>, o: OrderId)
    requires ValidRun(steps) && o in Run(steps).ord.sagas && Run(steps).ord.sagas[o].status == O.ABORTED
    ensures !CanComplete(steps, more, o)
  {
    RunSafe(steps);
    AbortedIsFailed(Run(steps), o);
    if ValidRun(steps + more) {
      RunAppendEnded(steps, more, o);
    }
  }

  /** The order is completed, or it waits for an event that can still be delivered. */
  ghost predicate Completable(s: Sys, o: OrderId)
    requires o in s.ord.sagas
  {
    s.ord.sagas[o].status == O.DONE || (s.ord.sagas[o].status == O.RUNNING && CompletionInFlight(s, o))
  }

  /**
   * An order whose payment was captured is or can still be completed if and only if its saga is done, or is running
   * and the completion event is in flight: not once it was aborted, nor once the event was marked as sent and lost.
   */
  lemma {:induction false} CapturedOrderCompletableIff(steps: seq<Step>, o: OrderId)
    requires ValidRun(steps) && Captured(Run(steps), o)
    ensures o in Run(steps).ord.sagas
    ensures (exists more :: CanComplete(steps, more, o)) <==> Completable(Run(steps), o)
  {
    var s := Run(steps);
    RunSafe(steps);
    CapturedHasSaga(s, o);
    match s.ord.sagas[o].status
    case DONE =>
      assert steps + [] == steps;
      assert CanComplete(steps, [], o);
    case ABORTED =>
      forall more ensures !CanComplete(steps, more, o) { AbortedCannotComplete(steps, more, o); }
    case RUNNING =>
      if CompletionInFlight(s, o) {
        InFlightCanComplete(steps, o);
      } else {
        forall more ensures !CanComplete(steps, more, o) { LostCannotComplete(steps, more, o); }
      }
  }

  /** Every order that waits for its completion event can end so. */
  lemma {:induction false} CompletionCanBeLost(steps: seq<Step>, o: OrderId) returns (more: seq<Step>)
    requires ValidRun(steps) && Captured(Run(steps), o) && O.Running(Run(steps).ord, o)
    ensures ValidRun(steps + more) && CompletionLost(Run(steps + more), o)
  {
    RunSafe(steps);
    CapturedHasSaga(Run(steps), o);
    more := AllCanBeLost(steps);
  }
}
