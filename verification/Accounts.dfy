/** The books of the whole system: what its events report as taken, and how exact its stock columns are. */
module Accounts {
  import opened Common
  import opened Events
  import opened System
  import opened Guarantees
  import I = Inventory
  import O = OrderSaga
  import P = Payment

  // ---- Money ----

  /** What each order has been charged and not given back. */
  ghost function PaidMap(s: Sys): map<OrderId, int> {
    map o | o in s.ord.orders :: if Paid(s, o) then Total(s.ord.orders[o].lines) else 0
  }

  predicate Paid(s: Sys, o: OrderId) {
    o in s.pay.payments && s.pay.payments[o].status == P.COMPLETED
  }

  /** A payment is for an order, and for what that order costs. */
  lemma {:induction false} PaidIsTotal(s: Sys, o: OrderId)
    requires Inv(s) && o in s.pay.payments
    ensures o in s.ord.orders && s.pay.payments[o].amount == Total(s.ord.orders[o].lines)
  {
    assert PaymentOk(s, o);
    assert O.OrderOk(s.ord, o);
  }

  lemma {:induction false} CapturedIsPaid(s: Sys)
    requires Inv(s)
    ensures Sum(P.Captured(s.pay.payments)) == Sum(PaidMap(s))
  {
    var small, big := P.Captured(s.pay.payments), PaidMap(s);
    forall o | o in small ensures o in big { PaidIsTotal(s, o); }
    forall o | o in big ensures big[o] == if o in small then small[o] else 0 {
      if o in small { PaidIsTotal(s, o); }
    }
    SumExtend(small, big);
  }

  lemma {:induction false} NetMoneyStep(s: Sys, step: Step)
    requires Inv(s) && P.NetMoney(s.pay.outbox) == Sum(P.Captured(s.pay.payments))
    ensures var pay := Next(s, step).pay; P.NetMoney(pay.outbox) == Sum(P.Captured(pay.payments))
  {
    PaymentPart(s, step);
    if PaymentOpOf(step).Some? {
      var op := PaymentOpOf(step).value;
      P.SettledRows(s.pay, op.order);
      P.StepConservesMoney(s.pay, op);
    }
  }

  lemma {:induction false} NetMoneyIsCaptured(steps: seq<Step>)
    requires ValidRun(steps)
    ensures var pay := Run(steps).pay; P.NetMoney(pay.outbox) == Sum(P.Captured(pay.payments))
    decreases |steps|
  {
    if steps == [] {
      assert P.Captured(P.EMPTY.payments) == map[];
    } else {
      var n := |steps| - 1;
      NetMoneyIsCaptured(steps[..n]);
      RunSafe(steps[..n]);
      NetMoneyStep(Run(steps[..n]), steps[n]);
    }
  }

  /** In every run, what was completed minus what was refunded is what the orders with a COMPLETED payment cost. */
  lemma {:induction false} MoneyIsAccountedFor(steps: seq<Step>)
    requires ValidRun(steps)
    ensures P.NetMoney(Run(steps).pay.outbox) == Sum(PaidMap(Run(steps)))
  {
    RunSafe(steps);
    NetMoneyIsCaptured(steps);
    CapturedIsPaid(Run(steps));
  }

  // ---- The split of a product's quantity ----

  /** An admin lowers a quantity below what is reserved, and the code stores an available count of zero. */
  ghost predicate UpsertClamps(s: Sys, step: Step, p: ProductId) {
    step.Admin? && step.change.Upsert? && I.ClampFires(s.inv, step.change, p)
  }

  ghost predicate ClampsAt(steps: seq<Step>, i: nat, p: ProductId)
    requires i < |steps|
  {
    UpsertClamps(Run(steps[..i]), steps[i], p)
  }

  lemma {:induction false} OnlyUpsertsClamp(steps: seq<Step>, step: Step, p: ProductId)
    requires ValidRun(steps) && Enabled(Run(steps), step) && InventoryOpOf(step).Some?
    ensures I.ClampFires(Run(steps).inv, InventoryOpOf(step).value, p) <==> UpsertClamps(Run(steps), step, p)
  {
    if step.ToInventory? { ReleaseNeverClamps(steps, step.event, p); }
  }

  lemma {:induction false} GapStep(steps: seq<Step>, step: Step, p: ProductId)
    requires ValidRun(steps) && Enabled(Run(steps), step)
    ensures var before, after := I.Gap(Run(steps).inv, p), I.Gap(Next(Run(steps), step).inv, p);
            after >= before >= 0 && (after > before <==> UpsertClamps(Run(steps), step, p))
  {
    RunSafe(steps);
    InventoryPart(Run(steps), step);
    if InventoryOpOf(step).Some? {
      I.StepKeepsSane(Run(steps).inv, InventoryOpOf(step).value, p);
      OnlyUpsertsClamp(steps, step, p);
    }
  }

  lemma {:induction false} GapIsZeroIff(steps: seq<Step>, p: ProductId)
    requires ValidRun(steps)
    ensures I.Gap(Run(steps).inv, p) == 0 <==> forall i: nat | i < |steps| :: !ClampsAt(steps, i, p)
    decreases |steps|
  {
    if steps != [] {
      var n := |steps| - 1;
      GapIsZeroIff(steps[..n], p);
      GapStep(steps[..n], steps[n], p);
      assert ClampsAt(steps, n, p) <==> UpsertClamps(Run(steps[..n]), steps[n], p);
      forall i: nat | i < n ensures ClampsAt(steps[..n], i, p) <==> ClampsAt(steps, i, p) {
        assert steps[..n][..i] == steps[..i];
      }
    }
  }

  /** Step i lowers the quantity of p by more than is available. */
  lemma {:induction false} ClampsIff(steps: seq<Step>, i: nat, p: ProductId)
    requires i < |steps|
    ensures var stock := Run(steps[..i]).inv.stock;
            ClampsAt(steps, i, p) <==>
              p in stock && exists quantity: nat ::
                steps[i] == Admin(I.Upsert(p, quantity)) && stock[p].quantity - quantity > stock[p].available
  {
    var stock := Run(steps[..i]).inv.stock;
    if ClampsAt(steps, i, p) {
      assert steps[i] == Admin(I.Upsert(p, steps[i].change.quantity));
    }
  }

  /**
   * In every run, available and reserved make up exactly the quantity of each stocked product if and only if no upsert
   * lowered it by more than was available.
   */
  lemma {:induction false} SplitIsExactIff(steps: seq<Step>, p: ProductId)
    requires ValidRun(steps)
    ensures var stock := Run(steps).inv.stock;
            (p in stock ==> stock[p].available + stock[p].reserved == stock[p].quantity) <==>
              forall i: nat, quantity: nat |
                i < |steps| && steps[i] == Admin(I.Upsert(p, quantity)) && p in Run(steps[..i]).inv.stock ::
                var before := Run(steps[..i]).inv.stock[p]; before.quantity - quantity <= before.available
  {
    GapIsZeroIff(steps, p);
    forall i: nat | i < |steps| { ClampsIff(steps, i, p); }
  }
}
