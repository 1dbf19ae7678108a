/** The relays and the network between the services: what is delivered was committed, picked up and sent before. */
module Transport {
  import opened Common
  import opened Events
  import opened System
  import I = Inventory
  import O = OrderSaga
  import P = Payment

  function Count(steps: seq<Step>, step: Step): nat {
    multiset(steps)[step]
  }

  lemma {:induction false} CountLast(steps: seq<Step>, step: Step)
    requires steps != []
    ensures var n := |steps| - 1;
            Count(steps, step) == Count(steps[..n], step) + if steps[n] == step then 1 else 0
  {
    assert steps == steps[..|steps| - 1] + [steps[|steps| - 1]];
  }

  /** One step moves a hold from picked up to sent, or ends it. */
  lemma {:induction false} HoldsStep(s: Sys, step: Step, hold: Hold)
    requires Enabled(s, step)
    ensures Next(s, step).held[hold] == s.held[hold] +
              (if step == (if hold.sent then Send(hold.row) else Pick(hold.row)) then 1 else 0) -
              (if step == (if hold.sent then Mark(hold.row) else Send(hold.row)) || step == Abandon(hold) then 1 else 0)
  {
  }

  /**
   * In every run each time a row was picked up it was then marked, given up on, or is still held; and each time it was
   * sent it was then marked, given up on, or is still to be marked.
   */
  lemma {:induction false} HoldsBalance(steps: seq<Step>, row: RowId)
    requires ValidRun(steps)
    ensures var held, unsent, sent := Run(steps).held, Hold(row, false), Hold(row, true);
            && Count(steps, Pick(row)) ==
                 Count(steps, Mark(row)) + Count(steps, Abandon(unsent)) + Count(steps, Abandon(sent)) +
                 held[unsent] + held[sent]
            && Count(steps, Send(row)) == Count(steps, Mark(row)) + Count(steps, Abandon(sent)) + held[sent]
    decreases |steps|
  {
    if steps != [] {
      var n := |steps| - 1;
      HoldsBalance(steps[..n], row);
      HoldsStep(Run(steps[..n]), steps[n], Hold(row, false));
      HoldsStep(Run(steps[..n]), steps[n], Hold(row, true));
      CountLast(steps, Pick(row));
      CountLast(steps, Send(row));
      CountLast(steps, Mark(row));
      CountLast(steps, Abandon(Hold(row, false)));
      CountLast(steps, Abandon(Hold(row, true)));
    }
  }

  /** A row is marked exactly when a pass has come to mark it, and then it was sent. */
  lemma {:induction false} MarkedWasSent(steps: seq<Step>, row: RowId)
    requires ValidRun(steps)
    ensures row in Run(steps).marked <==> Mark(row) in steps
    ensures row in Run(steps).marked ==> Pick(row) in steps && Send(row) in steps
  {
    MarkedIff(steps, row);
    HoldsBalance(steps, row);
    assert Mark(row) in steps ==> Count(steps, Mark(row)) > 0;
  }

  lemma {:induction false} MarkedIff(steps: seq<Step>, row: RowId)
    ensures row in Run(steps).marked <==> Mark(row) in steps
    decreases |steps|
  {
    if steps != [] {
      var n := |steps| - 1;
      MarkedIff(steps[..n], row);
      assert steps == steps[..n] + [steps[n]];
    }
  }

  /** The i-th step of a run puts e on the network: it sends a row of some service's outbox that holds it. */
  ghost predicate SentAt(steps: seq<Step>, i: nat, e: Event)
    requires i < |steps|
  {
    var s := Run(steps[..i]);
    steps[i].Send? &&
    match steps[i].row
    case RowId(ORDERS, k) => k < |s.ord.outbox| && s.ord.outbox[k] == e
    case RowId(INVENTORY, k) => k < |s.inv.outbox| && s.inv.outbox[k] == e
    case RowId(PAYMENTS, k) => k < |s.pay.outbox| && s.pay.outbox[k] == e
  }

  predicate DroppedAfter(steps: seq<Step>, i: nat, e: Event) {
    exists j :: i < j < |steps| && steps[j] == Drop(e)
  }

  lemma {:induction false} NetNext(s: Sys, step: Step, e: Event)
    ensures e in Next(s, step).net
       <==> (step.Send? && RowExists(s, step.row) && EventOf(s, step.row) == e) || (e in s.net && step != Drop(e))
  {
  }

  lemma {:induction false} NetStep(steps: seq<Step>, e: Event)
    requires steps != []
    ensures var n := |steps| - 1;
            e in Run(steps).net <==> SentAt(steps, n, e) || (e in Run(steps[..n]).net && steps[n] != Drop(e))
  {
    NetNext(Run(steps[..|steps| - 1]), steps[|steps| - 1], e);
  }

  lemma {:induction false} DroppedOn(steps: seq<Step>, i: nat, e: Event)
    requires i < |steps| - 1
    ensures var n := |steps| - 1;
            DroppedAfter(steps, i, e) <==> DroppedAfter(steps[..n], i, e) || steps[n] == Drop(e)
  {
    var before := steps[..|steps| - 1];
    if DroppedAfter(before, i, e) {
      var j :| i < j < |before| && before[j] == Drop(e);
      assert steps[j] == Drop(e);
    }
    if DroppedAfter(steps, i, e) && steps[|before|] != Drop(e) {
      var j :| i < j < |steps| && steps[j] == Drop(e);
      assert before[j] == Drop(e);
    }
  }

  /** The i-th step put e on the network, and no later one has dropped it. */
  ghost predicate OnNetSince(steps: seq<Step>, i: nat, e: Event)
    requires i < |steps|
  {
    SentAt(steps, i, e) && !DroppedAfter(steps, i, e)
  }

  lemma {:induction false} OnNetStill(steps: seq<Step>, i: nat, e: Event)
    requires i < |steps| - 1
    ensures var n := |steps| - 1;
            OnNetSince(steps, i, e) <==> OnNetSince(steps[..n], i, e) && steps[n] != Drop(e)
  {
    DroppedOn(steps, i, e);
    assert steps[..|steps| - 1][..i] == steps[..i];
  }

  /** The network holds what some step has sent and no later step has dropped. */
  lemma {:induction false} NetIff(steps: seq<Step>, e: Event)
    ensures e in Run(steps).net <==> exists i: nat | i < |steps| :: OnNetSince(steps, i, e)
    decreases |steps|
  {
    if steps != [] {
      var n := |steps| - 1;
      NetIff(steps[..n], e);
      NetStep(steps, e);
      assert OnNetSince(steps, n, e) <==> SentAt(steps, n, e);
      StillOnNet(steps, e);
    }
  }

  lemma {:induction false} StillOnNet(steps: seq<Step>, e: Event)
    requires steps != []
    ensures var n := |steps| - 1;
            (exists i: nat | i < n :: OnNetSince(steps, i, e))
              <==>
            (exists i: nat | i < n :: OnNetSince(steps[..n], i, e)) && steps[n] != Drop(e)
  {
    var n := |steps| - 1;
    if i: nat :| i < n && OnNetSince(steps, i, e) {
      OnNetStill(steps, i, e);
    }
    if i: nat :| i < n && OnNetSince(steps[..n], i, e) {
      OnNetStill(steps, i, e);
    }
  }

  lemma {:induction false} PrefixIsValid(steps: seq<Step>, i: nat)
    requires ValidRun(steps) && i < |steps|
    ensures ValidRun(steps[..i]) && Enabled(Run(steps[..i]), steps[i])
    decreases |steps|
  {
    var n := |steps| - 1;
    if i < n {
      PrefixIsValid(steps[..n], i);
      assert steps[..n][..i] == steps[..i];
    }
  }

  predicate Delivers(step: Step, e: Event) {
    match step
    case ToOrder(x) => x == e
    case ToInventory(x) => x == e
    case ToPayment(x, _) => x == e
    case _ => false
  }

  /** In every run a message is delivered only after it was sent from an outbox and, since then, not dropped. */
  lemma {:induction false} DeliveredWasSent(steps: seq<Step>, i: nat, e: Event)
    requires ValidRun(steps) && i < |steps| && Delivers(steps[i], e)
    ensures exists j: nat | j < i :: SentAt(steps, j, e) && forall k | j < k < i :: steps[k] != Drop(e)
  {
    PrefixIsValid(steps, i);
    NetIff(steps[..i], e);
    var before := steps[..i];
    var j: nat :| j < i && OnNetSince(before, j, e);
    assert before[..j] == steps[..j] && SentAt(steps, j, e);
    forall k | j < k < i ensures steps[k] != Drop(e) { assert before[k] == steps[k]; }
  }

  /**
   * What may come after a run: clients, administrators and the sender of refund commands may always act; a message may
   * arrive anywhere, and again, exactly when the network holds it; and a pass picks up exactly the rows not yet marked.
   */
  lemma {:induction false} RunGoesOn(steps: seq<Step>, step: Step)
    requires ValidRun(steps)
    ensures ValidRun(steps + [step]) <==>
            var s := Run(steps);
            match step
            case Client(op) => op.Create? || op.Cancel? || op.Timeout?
            case Admin(change) => change.Upsert? || change.Adjust?
            case RefundCommand(_, _) => true
            case Pick(RowId(ORDERS, k)) => k < |s.ord.outbox| && RowId(ORDERS, k) !in s.marked
            case Pick(RowId(INVENTORY, k)) => k < |s.inv.outbox| && RowId(INVENTORY, k) !in s.marked
            case Pick(RowId(PAYMENTS, k)) => k < |s.pay.outbox| && RowId(PAYMENTS, k) !in s.marked
            case Send(row) => Hold(row, false) in s.held
            case Mark(row) => Hold(row, true) in s.held
            case Abandon(hold) => hold in s.held
            case ToOrder(e) => e in s.net
            case ToInventory(e) => e in s.net
            case ToPayment(e, _) => e in s.net
            case Drop(e) => e in s.net
  {
    var s := Run(steps);
    assert ValidRun(steps + [step]) <==> Enabled(s, step) by {
      AppendOne(steps, [step]);
      assert steps + [step][..0] == steps;
    }
    if step.Send? { HeldExists(steps, step.row); }
  }

  /** Outboxes only grow, so what a pass holds is there. */
  lemma {:induction false} HeldExists(steps: seq<Step>, row: RowId)
    requires ValidRun(steps)
    ensures forall sent: bool :: Hold(row, sent) in Run(steps).held ==> RowExists(Run(steps), row)
    decreases |steps|
  {
    if steps != [] {
      var n := |steps| - 1;
      HeldExists(steps[..n], row);
      HoldsStep(Run(steps[..n]), steps[n], Hold(row, false));
      HoldsStep(Run(steps[..n]), steps[n], Hold(row, true));
      if RowExists(Run(steps[..n]), row) { ExistsOn(Run(steps[..n]), steps[n], row); }
    }
  }

  lemma {:induction false} ExistsOn(s: Sys, step: Step, row: RowId)
    requires RowExists(s, row)
    ensures RowExists(Next(s, step), row)
  {
    OrderPart(s, step);
    InventoryPart(s, step);
    PaymentPart(s, step);
  }
}
