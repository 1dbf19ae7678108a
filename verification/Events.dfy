/** Identifiers, order lines and the messages the services exchange. */
module Events {
  import opened Common

  type OrderId = nat
  type ProductId = nat
  type UserId = nat
  type Time = int
  /** Amounts in minor units. */
  type Money = int

  /** Quantities are validated to be at least 1 when an order is placed. */
  datatype Item = Item(product: ProductId, quantity: pos)
  datatype Line = Line(product: ProductId, quantity: pos, unitPrice: Money)

  /** One constructor per Kafka topic, holding that topic's payload. */
  datatype Event =
    // order-service
    | OrderCreated(order: OrderId, user: UserId, total: Money, lines: seq<Line>)
    | InventoryReserve(order: OrderId, items: seq<Item>)
    | InventoryRelease(order: OrderId, items: seq<Item>)
    | PaymentCharge(order: OrderId, user: UserId, amount: Money)
    | OrderCompleted(order: OrderId)
    | OrderFailed(order: OrderId, failure: string)
    | OrderCancelled(order: OrderId, user: UserId)
    // inventory-service
    | StockUpdated(product: ProductId, available: int, quantity: int)
    | InventoryReserved(order: OrderId, items: seq<Item>)
    | ReservationFailed(order: OrderId, product: ProductId, requested: int, available: int)
    | InventoryReleased(order: OrderId, items: seq<Item>)
    // payment-service
    | PaymentCompleted(order: OrderId, user: UserId, amount: Money, transaction: nat)
    | PaymentFailed(order: OrderId, user: UserId, amount: Money, reason: Option<string>)
    | PaymentRefunded(order: OrderId, user: UserId, amount: Money)
    // sent by no service of the repository, but the payment consumer subscribes to it
    | PaymentRefund(order: OrderId)

  /** The items a command carries: an order's lines without their prices. */
  function Items(lines: seq<Line>): (items: seq<Item>)
    ensures |items| == |lines|
    ensures forall k | 0 <= k < |lines| :: items[k] == Item(lines[k].product, lines[k].quantity)
  {
    if lines == [] then []
    else
      var last := lines[|lines| - 1];
      Items(lines[..|lines| - 1]) + [Item(last.product, last.quantity)]
  }

  function Total(lines: seq<Line>): Money {
    if lines == [] then 0
    else
      var last := lines[|lines| - 1];
      Total(lines[..|lines| - 1]) + last.unitPrice * last.quantity
  }

  /** A total is the sum of price times quantity: so for one line, and for lists put together. */
  lemma {:induction false} TotalAdds(a: seq<Line>, b: seq<Line>, product: ProductId, quantity: pos, price: Money)
    ensures Total([Line(product, quantity, price)]) == price * quantity
    ensures Total(a + b) == Total(a) + Total(b)
    decreases |b|
  {
    var line := Line(product, quantity, price);
    assert [line][..0] == [];
    if b == [] {
      assert a + b == a;
    } else {
      TotalAdds(a, b[..|b| - 1], product, quantity, price);
      assert (a + b)[..|a + b| - 1] == a + b[..|b| - 1];
    }
  }

  /** How many units of product p a list of items asks for, repeats included. */
  function Demand(items: seq<Item>, p: ProductId): nat {
    if items == [] then 0
    else
      var last := items[|items| - 1];
      Demand(items[..|items| - 1], p) + if last.product == p then last.quantity else 0
  }

  lemma {:induction false} DemandSnoc(items: seq<Item>, item: Item, p: ProductId)
    ensures Demand(items + [item], p) == Demand(items, p) + if item.product == p then item.quantity else 0
  {
    assert (items + [item])[..|items|] == items;
  }

  /** A demand is the sum of the quantities asked for: so for one item, and for lists put together. */
  lemma {:induction false} DemandAdds(a: seq<Item>, b: seq<Item>, product: ProductId, quantity: pos, p: ProductId)
    ensures Demand([Item(product, quantity)], p) == if product == p then quantity else 0
    ensures Demand(a + b, p) == Demand(a, p) + Demand(b, p)
    decreases |b|
  {
    assert [Item(product, quantity)][..0] == [];
    if b == [] {
      assert a + b == a;
    } else {
      DemandAdds(a, b[..|b| - 1], product, quantity, p);
      assert (a + b)[..|a + b| - 1] == a + b[..|b| - 1];
    }
  }

  lemma {:induction false} DemandPrefix(items: seq<Item>, k: nat, p: ProductId)
    requires k <= |items|
    ensures Demand(items[..k], p) <= Demand(items, p)
    decreases |items|
  {
    if k < |items| {
      assert items[..|items| - 1][..k] == items[..k];
      DemandPrefix(items[..|items| - 1], k, p);
    } else {
      assert items[..k] == items;
    }
  }

  /** Removing the item at index i removes exactly its quantity. */
  lemma {:induction false} DemandRemove(items: seq<Item>, i: nat, p: ProductId)
    requires i < |items|
    ensures Demand(items, p)
         == Demand(items[..i] + items[i + 1..], p) + if items[i].product == p then items[i].quantity else 0
    decreases |items|
  {
    var n := |items| - 1;
    if i < n {
      var front := items[..n];
      DemandRemove(front, i, p);
      assert items[..i] + items[i + 1..] == (front[..i] + front[i + 1..]) + [items[n]];
      DemandSnoc(front[..i] + front[i + 1..], items[n], p);
    } else {
      assert items[..i] + items[i + 1..] == items[..n];
    }
  }

  lemma {:induction false} RemoveOne(items: seq<Item>, i: nat)
    requires i < |items|
    ensures multiset(items[..i] + items[i + 1..]) == multiset(items) - multiset{items[i]}
  {
    assert items == items[..i] + [items[i]] + items[i + 1..];
  }

  /** Demand depends on which items are asked for, not on their order. */
  lemma {:induction false} DemandPermutation(a: seq<Item>, b: seq<Item>, p: ProductId)
    requires multiset(a) == multiset(b)
    ensures Demand(a, p) == Demand(b, p)
    decreases |a|
  {
    if a == [] {
      assert |b| == |multiset(b)| == |multiset(a)| == 0;
    } else {
      var n := |a| - 1;
      assert a[n] in multiset(b);
      var i :| 0 <= i < |b| && b[i] == a[n];
      RemoveOne(a, n);
      RemoveOne(b, i);
      assert a[..n] + a[n + 1..] == a[..n];
      DemandPermutation(a[..n], b[..i] + b[i + 1..], p);
      DemandRemove(b, i, p);
    }
  }
}
