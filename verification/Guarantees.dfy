/** What holds across the services in every run, under reordering, duplication and loss. */
module Guarantees {
  import opened Common
  import opened Events
  import opened Ledger
  import opened System
  import I = Inventory
  import O = OrderSaga
  import P = Payment

  // ---- A completed order is paid for and its stock is held ----

  lemma {:induction false} CompletedIsPaidAndHeld(steps: seq<Step>, o: OrderId)
    requires ValidRun(steps)
    requires o in Run(steps).ord.orders && Run(steps).ord.orders[o].status == O.COMPLETED
    ensures var s := Run(steps);
            && o in s.ord.sagas && s.ord.sagas[o].status == O.DONE
            && RowsOf(s.inv.ledger, RESERVE, o) == ReserveRows(o, ItemsOf(s, o))
            && RowsOf(s.inv.ledger, RELEASE, o) == []
            && o in s.pay.payments
            && s.pay.payments[o].status in {P.COMPLETED, P.REFUNDED}
            && s.pay.payments[o].amount == Total(s.ord.orders[o].lines)
            && s.pay.payments[o].user == s.ord.orders[o].user
  {
    RunSafe(steps);
    var s := Run(steps);
    assert O.OrderOk(s.ord, o) && SagaOk(s, o) && PaymentOk(s, o) && LedgerOk(s, o);
  }

  // ---- Compensation is causally sound ----

  lemma {:induction false} CompensationIsSound(steps: seq<Step>, o: OrderId)
    requires ValidRun(steps)
    ensures var s := Run(steps);
            && (forall items | Emitted(s, InventoryRelease(o, items)) ::
                  HasReserved(s, o) && items == ItemsOf(s, o) && Refused(s, o))
            && (HasRow(s.inv.ledger, RELEASE, o) ==> HasReserved(s, o) && Refused(s, o))
            && (Captured(s, o) ==> RowsOf(s.inv.ledger, RELEASE, o) == [])
            && (o in s.pay.payments ==> HasReserved(s, o) && s.pay.payments[o].status != P.PENDING)
  {
    RunSafe(steps);
    var s := Run(steps);
    assert LedgerOk(s, o);
    RowsOfEmptyIff(s.inv.ledger, RELEASE, o);
    if o in s.pay.payments { assert PaymentOk(s, o); }
    if o in s.ord.sagas { assert SagaOk(s, o); }
    forall items | Emitted(s, InventoryRelease(o, items))
      ensures HasReserved(s, o) && items == ItemsOf(s, o) && Refused(s, o)
    {
      assert EventOk(s, InventoryRelease(o, items));
    }
  }

  // ---- Stock conservation ----

  /** Order o has taken stock and not given it back. */
  predicate Holding(s: Sys, o: OrderId) {
    HasRow(s.inv.ledger, RESERVE, o) && !HasRow(s.inv.ledger, RELEASE, o)
  }

  /** What each order holds of product p: its whole demand while it is holding, otherwise nothing. */
  ghost function HoldMap(s: Sys, p: ProductId): map<OrderId, int> {
    map o | o in s.ord.orders :: if Holding(s, o) then Demand(ItemsOf(s, o), p) else 0
  }

  lemma {:induction false} SumExtend<K>(small: map<K, int>, big: map<K, int>)
    requires small.Keys <= big.Keys
    requires forall k | k in big :: big[k] == if k in small then small[k] else 0
    ensures Sum(small) == Sum(big)
    decreases |big|
  {
    if big != map[] {
      var k :| k in big;
      SumRemove(big, k);
      if k in small {
        SumRemove(small, k);
        SumExtend(small - {k}, big - {k});
      } else {
        SumExtend(small, big - {k});
      }
    } else {
      assert small == map[];
    }
  }

  lemma {:induction false} HoldsAsHeld(s: Sys, o: OrderId, p: ProductId)
    requires Inv(s)
    ensures HeldBy(s.inv.ledger, o, p) == if o in s.ord.orders && Holding(s, o) then Demand(ItemsOf(s, o), p) else 0
  {
    assert LedgerOk(s, o);
    HeldByOrder(s, o, p);
  }

  lemma {:induction false} HeldMapIsHoldMap(s: Sys, p: ProductId)
    requires Inv(s)
    ensures Sum(HeldMap(s.inv.ledger, p)) == Sum(HoldMap(s, p))
  {
    var small, big := HeldMap(s.inv.ledger, p), HoldMap(s, p);
    forall o | o in small ensures o in big { RefIsOrder(s, o); }
    forall o | o in big
      ensures big[o] == if o in small then small[o] else 0
    {
      HoldsAsHeld(s, o, p);
      if o !in small { HeldByNone(s.inv.ledger, o, p); }
    }
    SumExtend(small, big);
  }

  /**
   * For every product the reserved column is the total demand of the orders now holding stock, and it is
   * minus the sum of all RESERVE and RELEASE deltas of the ledger.
   */
  lemma {:induction false} StockIsConserved(steps: seq<Step>, p: ProductId)
    requires ValidRun(steps)
    ensures var s := Run(steps);
            && ReservedOf(s, p) == Sum(HoldMap(s, p))
            && ReservedOf(s, p) == HeldTotal(s.inv.ledger, p)
            && AvailableOf(s, p) >= 0
            && forall o | o in s.ord.orders && Holding(s, o) :: Demand(ItemsOf(s, o), p) <= ReservedOf(s, p)
  {
    RunSafe(steps);
    var s := Run(steps);
    HeldMapIsHoldMap(s, p);
    HeldPartition(s.inv.ledger, p);
    forall o | o in s.ord.orders && Holding(s, o)
      ensures Demand(ItemsOf(s, o), p) <= ReservedOf(s, p)
    {
      HoldsAsHeld(s, o, p);
      HeldIsReserved(s, o, p);
    }
  }

  lemma {:induction false} RefIsOrder(s: Sys, o: OrderId)
    requires Inv(s) && o in Refs(s.inv.ledger)
    ensures o in s.ord.orders
  {
    var ledger := s.inv.ledger;
    RefsHaveRows(ledger, o);
    RowsOfEmptyIff(ledger, RESERVE, o);
    RowsOfEmptyIff(ledger, RELEASE, o);
    assert LedgerOk(s, o);
  }

  /** In no run does the clamp in release have anything to clamp. */
  lemma {:induction false} ReleaseNeverClamps(steps: seq<Step>, e: Event, p: ProductId)
    requires ValidRun(steps) && Enabled(Run(steps), ToInventory(e)) && InventoryDispatch(e).Some?
    ensures !I.ClampFires(Run(steps).inv, InventoryDispatch(e).value, p)
  {
    RunSafe(steps);
    var s := Run(steps);
    assert EventOk(s, e);
    if e.InventoryRelease? && !HasRow(s.inv.ledger, RELEASE, e.order) {
      ReleaseFits(s, e.order, p);
    }
  }

  // ---- Reserve and release undo each other ----

  /** The step delivers one of order o's two inventory commands. */
  predicate Commands(step: Step, o: OrderId) {
    step.ToInventory? && (step.event.InventoryReserve? || step.event.InventoryRelease?) && step.event.order == o
  }

  /** By how much o's own commands have changed reserved and available of product p over a run. */
  ghost function OwnEffect(steps: seq<Step>, o: OrderId, p: ProductId): (int, int) {
    if steps == [] then (0, 0)
    else
      var n := |steps| - 1;
      var before := OwnEffect(steps[..n], o, p);
      if Commands(steps[n], o) then
        var s, s' := Run(steps[..n]), Run(steps);
        (before.0 + ReservedOf(s', p) - ReservedOf(s, p), before.1 + AvailableOf(s', p) - AvailableOf(s, p))
      else before
  }

  lemma {:induction false} CommandMovesHeld(s: Sys, op: I.InventoryOp, p: ProductId)
    requires Inv(s) && InventoryStepJustified(s, op) && (op.Reserve? || op.Release?)
    ensures var s' := s.(inv := I.InventoryNext(s.inv, op));
            var moved := HeldBy(s'.inv.ledger, op.order, p) - HeldBy(s.inv.ledger, op.order, p);
            ReservedOf(s', p) - ReservedOf(s, p) == moved && AvailableOf(s', p) - AvailableOf(s, p) == -moved
  {
    var o := op.order;
    InventoryAppends(s.inv, op);
    RowsAfter(s.inv, op, RESERVE, o);
    RowsAfter(s.inv, op, RELEASE, o);
    HeldByReserveRows(o, op.items, p);
    HeldTotalAppend(RowsOf(s.inv.ledger, RESERVE, o), ReserveRows(o, op.items), p);
    HeldTotalAppend(RowsOf(s.inv.ledger, RELEASE, o), ReleaseRows(o, op.items), p);
    HeldTotalAppend(RowsOf(s.inv.ledger, RESERVE, o), [], p);
    HeldTotalAppend(RowsOf(s.inv.ledger, RELEASE, o), [], p);
    if op.Reserve? {
      ReserveMovesBoth(s, o, op.items, p);
    } else {
      ReleaseMovesBoth(s, o, op.items, p);
    }
  }

  lemma {:induction false} ReserveMovesBoth(s: Sys, o: OrderId, items: seq<Item>, p: ProductId)
    ensures var s' := s.(inv := I.ReserveNext(s.inv, o, items));
            var moved := if NewRows(s.inv, I.Reserve(o, items)) == [] then 0 else Demand(items, p);
            ReservedOf(s', p) - ReservedOf(s, p) == moved && AvailableOf(s', p) - AvailableOf(s, p) == -moved
  {
    if I.Fits(s.inv.stock, items) && !HasRow(s.inv.ledger, RESERVE, o) {
      assert NewRows(s.inv, I.Reserve(o, items)) == ReserveRows(o, items);
    } else {
      assert NewRows(s.inv, I.Reserve(o, items)) == [];
    }
  }

  lemma {:induction false} ReleaseMovesBoth(s: Sys, o: OrderId, items: seq<Item>, p: ProductId)
    requires Inv(s) && HasReserved(s, o) && items == ItemsOf(s, o)
    ensures var s' := s.(inv := I.ReleaseNext(s.inv, o, items));
            var moved := if NewRows(s.inv, I.Release(o, items)) == [] then 0 else 0 - Demand(items, p);
            ReservedOf(s', p) - ReservedOf(s, p) == moved && AvailableOf(s', p) - AvailableOf(s, p) == -moved
  {
    if !HasRow(s.inv.ledger, RELEASE, o) {
      assert NewRows(s.inv, I.Release(o, items)) == ReleaseRows(o, items);
      ReleaseFits(s, o, p);
    } else {
      assert NewRows(s.inv, I.Release(o, items)) == [];
    }
  }

  lemma {:induction false} OtherOpKeepsHeld(db: I.InventoryDb, op: I.InventoryOp, o: OrderId, p: ProductId)
    requires op.Reserve? || op.Release? ==> op.order != o
    ensures HeldBy(I.InventoryNext(db, op).ledger, o, p) == HeldBy(db.ledger, o, p)
  {
    RowsAfter(db, op, RESERVE, o);
    RowsAfter(db, op, RELEASE, o);
    assert RowsOf(db.ledger, RESERVE, o) + [] == RowsOf(db.ledger, RESERVE, o);
    assert RowsOf(db.ledger, RELEASE, o) + [] == RowsOf(db.ledger, RELEASE, o);
  }

  /** Steps that are not o's commands leave what o holds alone. */
  lemma {:induction false} OthersKeepHeld(s: Sys, step: Step, o: OrderId, p: ProductId)
    requires Enabled(s, step) && !Commands(step, o)
    ensures HeldBy(Next(s, step).inv.ledger, o, p) == HeldBy(s.inv.ledger, o, p)
  {
    if step.Admin? {
      OtherOpKeepsHeld(s.inv, step.change, o, p);
    } else if step.ToInventory? && InventoryDispatch(step.event).Some? {
      OtherOpKeepsHeld(s.inv, InventoryDispatch(step.event).value, o, p);
    }
  }

  lemma {:induction false} CommandStepMovesHeld(s: Sys, step: Step, o: OrderId, p: ProductId)
    requires Inv(s) && Enabled(s, step) && Commands(step, o)
    ensures var s' := Next(s, step);
            var moved := HeldBy(s'.inv.ledger, o, p) - HeldBy(s.inv.ledger, o, p);
            ReservedOf(s', p) - ReservedOf(s, p) == moved && AvailableOf(s', p) - AvailableOf(s, p) == -moved
  {
    assert EventOk(s, step.event);
    CommandMovesHeld(s, InventoryDispatch(step.event).value, p);
  }

  /** However its commands are repeated and interleaved, what an order has moved is exactly what it holds. */
  lemma {:induction false} OwnEffectIsHeld(steps: seq<Step>, o: OrderId, p: ProductId)
    requires ValidRun(steps)
    ensures OwnEffect(steps, o, p).0 == HeldBy(Run(steps).inv.ledger, o, p)
    ensures OwnEffect(steps, o, p).1 == -HeldBy(Run(steps).inv.ledger, o, p)
    decreases |steps|
  {
    if steps != [] {
      var n := |steps| - 1;
      OwnEffectIsHeld(steps[..n], o, p);
      RunSafe(steps[..n]);
      if Commands(steps[n], o) {
        CommandStepMovesHeld(Run(steps[..n]), steps[n], o, p);
      } else {
        OthersKeepHeld(Run(steps[..n]), steps[n], o, p);
      }
    }
  }

  /**
   * Whatever the redelivery pattern and whatever runs in between: an order's commands have moved its demand
   * exactly once while it is holding, and nothing at all once it has also been released.
   */
  lemma {:induction false} ReserveReleaseCancel(steps: seq<Step>, o: OrderId, p: ProductId)
    requires ValidRun(steps) && o in Run(steps).ord.orders
    ensures var moved := if Holding(Run(steps), o) then Demand(ItemsOf(Run(steps), o), p) else 0;
            OwnEffect(steps, o, p).0 == moved && OwnEffect(steps, o, p).1 == -moved
  {
    OwnEffectIsHeld(steps, o, p);
    RunSafe(steps);
    HoldsAsHeld(Run(steps), o, p);
  }

  // ---- Duplicate commands, whatever runs between them ----

  /** What a step does to the inventory tables. */
  function StockOp(step: Step): Option<I.InventoryOp> {
    match step
    case Admin(op) => Some(op)
    case ToInventory(e) => InventoryDispatch(e)
    case _ => None
  }

  lemma {:induction false} StepKeepsRow(s: Sys, step: Step, kind: LedgerType, o: OrderId)
    requires kind in {RESERVE, RELEASE} && HasRow(s.inv.ledger, kind, o)
    ensures HasRow(Next(s, step).inv.ledger, kind, o)
  {
    if StockOp(step).Some? { I.StepLeavesRow(s.inv, StockOp(step).value, o); }
  }

  /** RESERVE and RELEASE rows are never lost. */
  lemma {:induction false} RowsPersist(steps: seq<Step>, more: seq<Step>, kind: LedgerType, o: OrderId)
    requires kind in {RESERVE, RELEASE} && HasRow(Run(steps).inv.ledger, kind, o)
    ensures HasRow(Run(steps + more).inv.ledger, kind, o)
    decreases |more|
  {
    if more == [] {
      assert steps + more == steps;
    } else {
      var n := |more| - 1;
      AppendOne(steps, more);
      RowsPersist(steps, more[..n], kind, o);
      StepKeepsRow(Run(steps + more[..n]), more[n], kind, o);
    }
  }

  lemma {:induction false} RunNext(steps: seq<Step>, step: Step)
    ensures Run(steps + [step]) == Next(Run(steps), step)
  {
    assert (steps + [step])[..|steps|] == steps;
  }

  /**
   * For a non-empty reserve, delivered in any run and delivered again after any further steps: the first delivery
   * leaves a row exactly when the order had one or everything it asks for fits, and the second is ignored exactly
   * when the order has a row by then, which it has for good once any delivery succeeded.
   */
  lemma {:induction false} ReserveReplayIff(steps: seq<Step>, more: seq<Step>, o: OrderId, items: seq<Item>)
    requires items != []
    ensures var first := Run(steps + [ToInventory(InventoryReserve(o, items))]).inv;
            var later := Run(steps + [ToInventory(InventoryReserve(o, items))] + more).inv;
            && (HasRow(first.ledger, RESERVE, o) <==>
                  HasRow(Run(steps).inv.ledger, RESERVE, o) || I.Fits(Run(steps).inv.stock, items))
            && (HasRow(first.ledger, RESERVE, o) ==> HasRow(later.ledger, RESERVE, o))
            && (I.ReserveNext(later, o, items) == later <==> HasRow(later.ledger, RESERVE, o))
  {
    var delivery := ToInventory(InventoryReserve(o, items));
    RunNext(steps, delivery);
    I.StepLeavesRow(Run(steps).inv, I.Reserve(o, items), o);
    if HasRow(Run(steps + [delivery]).inv.ledger, RESERVE, o) {
      RowsPersist(steps + [delivery], more, RESERVE, o);
    }
    I.IgnoredIff(Run(steps + [delivery] + more).inv, o, items);
  }

  lemma {:induction false} ReserveTwice(db: I.InventoryDb, o: OrderId, items: seq<Item>)
    ensures HasRow(db.ledger, RESERVE, o) || items != [] ==>
      var db' := I.ReserveNext(db, o, items); I.ReserveNext(db', o, items).stock == db'.stock
  {
    I.StepLeavesRow(db, I.Reserve(o, items), o);
  }

  /**
   * Once an order has a row of a kind, a command of that kind is ignored after any further steps; and two deliveries
   * of a non-empty reserve in a row never move stock twice, whether it fits or not.
   */
  lemma {:induction false} ReplaysChangeNothing(steps: seq<Step>, more: seq<Step>, o: OrderId, items: seq<Item>)
    requires items != []
    ensures var later := Run(steps + more).inv;
            && (HasRow(Run(steps).inv.ledger, RESERVE, o) ==> I.ReserveNext(later, o, items) == later)
            && (HasRow(Run(steps).inv.ledger, RELEASE, o) ==> I.ReleaseNext(later, o, items) == later)
    ensures var db := I.ReserveNext(Run(steps).inv, o, items); I.ReserveNext(db, o, items).stock == db.stock
  {
    if HasRow(Run(steps).inv.ledger, RESERVE, o) { RowsPersist(steps, more, RESERVE, o); }
    if HasRow(Run(steps).inv.ledger, RELEASE, o) { RowsPersist(steps, more, RELEASE, o); }
    I.IgnoredIff(Run(steps + more).inv, o, items);
    ReserveTwice(Run(steps).inv, o, items);
  }

  /** A non-empty release delivered once is ignored ever after, whatever runs in between. */
  lemma {:induction false} ReleaseReplayIgnored(
    steps: seq<Step>, more: seq<Step>, o: OrderId, items: seq<Item>, again: seq<Item>)
    requires items != []
    ensures var later := Run(steps + [ToInventory(InventoryRelease(o, items))] + more).inv;
            I.ReleaseNext(later, o, again) == later
  {
    var delivery := ToInventory(InventoryRelease(o, items));
    RunNext(steps, delivery);
    I.StepLeavesRow(Run(steps).inv, I.Release(o, items), o);
    RowsPersist(steps + [delivery], more, RELEASE, o);
    I.IgnoredIff(Run(steps + [delivery] + more).inv, o, again);
  }
}
