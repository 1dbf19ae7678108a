/** The Kafka consumers: each message goes to at most one handler, and an unknown topic changes nothing. */
module Consumers {
  import opened Common
  import opened Events
  import System
  import I = Inventory
  import O = OrderSaga
  import P = Payment

  method OrderEachMessage(service: O.OrderService, e: Event)
    modifies service
    ensures service.Db() == match System.OrderDispatch(e)
                            case None => old(service.Db())
                            case Some(op) => O.OrderNext(old(service.Db()), op)
    ensures service.Db() == match e
                            case InventoryReserved(o, _) => O.ReservedNext(old(service.Db()), o)
                            case ReservationFailed(o, _, _, _) =>
                              O.FailNext(old(service.Db()), o, "insufficient_stock")
                            case PaymentCompleted(o, _, _, _) => O.PaidNext(old(service.Db()), o)
                            case PaymentFailed(o, _, _, None) =>
                              O.PaymentFailedNext(old(service.Db()), o, "payment_declined")
                            case PaymentFailed(o, _, _, Some(reason)) =>
                              O.PaymentFailedNext(old(service.Db()), o, reason)
                            case _ => old(service.Db())
  {
    match e {
      case InventoryReserved(o, _) => service.HandleInventoryReserved(o);
      case ReservationFailed(o, _, _, _) => service.FailSaga(o, "insufficient_stock", false);
      case PaymentCompleted(o, _, _, _) => service.HandlePaymentCompleted(o);
      case PaymentFailed(o, _, _, reason) =>
        service.HandlePaymentFailed(o, if reason.Some? then reason.value else "payment_declined");
      case _ =>
    }
    OrderDispatchIs(old(service.Db()), e);
  }

  lemma {:induction false} OrderDispatchIs(db: O.OrderDb, e: Event)
    ensures (match System.OrderDispatch(e)
             case None => db
             case Some(op) => O.OrderNext(db, op))
            ==
            (match e
             case InventoryReserved(o, _) => O.ReservedNext(db, o)
             case ReservationFailed(o, _, _, _) => O.FailNext(db, o, "insufficient_stock")
             case PaymentCompleted(o, _, _, _) => O.PaidNext(db, o)
             case PaymentFailed(o, _, _, None) => O.PaymentFailedNext(db, o, "payment_declined")
             case PaymentFailed(o, _, _, Some(reason)) => O.PaymentFailedNext(db, o, reason)
             case _ => db)
  {
  }

  method InventoryEachMessage(service: I.InventoryService, e: Event)
    modifies service
    ensures service.Db() == match System.InventoryDispatch(e)
                            case None => old(service.Db())
                            case Some(op) => I.InventoryNext(old(service.Db()), op)
    ensures service.Db() == match e
                            case InventoryReserve(o, items) => I.ReserveNext(old(service.Db()), o, items)
                            case InventoryRelease(o, items) => I.ReleaseNext(old(service.Db()), o, items)
                            case _ => old(service.Db())
  {
    match e {
      case InventoryReserve(o, items) => var _ := service.ReserveOrder(o, items);
      case InventoryRelease(o, items) => service.ReleaseOrder(o, items);
      case _ =>
    }
  }

  /** result is what the provider answers when the message leads to a call. */
  method PaymentEachMessage(service: P.PaymentService, e: Event, result: P.ChargeResult)
    modifies service
    ensures service.Db() == match System.PaymentDispatch(e, result)
                            case None => old(service.Db())
                            case Some(op) => P.PaymentNext(old(service.Db()), op)
    ensures service.Db() == match e
                            case PaymentCharge(o, user, amount) =>
                              P.ChargeNext(old(service.Db()), o, user, amount, result)
                            case PaymentRefund(o) => P.RefundNext(old(service.Db()), o, result.Throws?)
                            case _ => old(service.Db())
  {
    match e {
      case PaymentCharge(o, user, amount) => service.ChargeOrder(o, user, amount, result);
      case PaymentRefund(o) => service.RefundOrder(o, result.Throws?);
      case _ =>
    }
  }
}
