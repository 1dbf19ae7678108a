/** When the timeout sweep cannot keep up: enough unfailable and newly due sagas leave one out for good. */
module Overload {
  import opened Common
  import opened Events
  import opened OrderSaga
  import opened Timeouts

  /** Thirty seconds, in milliseconds. */
  const SWEEP_INTERVAL: Time := 30 * 1000
  /** An order placed this many sweeps and a millisecond ahead has just become due. */
  const AHEAD := 11

  const LINES := [Line(1, 1, 1)]

  // ---- Batches of fresh orders ----

  /** Batch j has its ids from base + 20 * j on, w of them. */
  predicate InBatch(x: OrderId, base: OrderId, j: nat, w: nat) {
    base + SWEEP_SIZE * j <= x < base + SWEEP_SIZE * j + w
  }

  function Creates(base: OrderId, j: nat, w: nat, now: Time): seq<OrderOp> {
    if w == 0 then []
    else Creates(base, j, w - 1, now) + [Create(base + SWEEP_SIZE * j + w - 1, 0, LINES, None, now)]
  }

  function Ids(base: OrderId, j: nat, w: nat): (ids: seq<OrderId>)
    ensures |ids| == w && forall i | 0 <= i < w :: ids[i] == base + SWEEP_SIZE * j + i
  {
    seq(w, i requires 0 <= i < w => base + SWEEP_SIZE * j + i)
  }

  /** An order of the batch is new and runs; any other is as before. */
  predicate AddedOrSame(
    db: OrderDb, db': OrderDb, base: OrderId, j: nat, w: nat, deadline: Time, x: OrderId)
  {
    if InBatch(x, base, j, w) then Running(db', x) && x in db'.orders && db'.sagas[x].timeoutAt == deadline
    else
      && (x in db'.orders <==> x in db.orders) && (x in db'.sagas <==> x in db.sagas)
      && (x in db.sagas ==> db'.sagas[x] == db.sagas[x])
  }

  lemma {:induction false} CreateAdds(db: OrderDb, x: OrderId, now: Time, y: OrderId)
    requires x !in db.orders
    ensures var db' := OrderNext(db, Create(x, 0, LINES, None, now));
            if y == x then Running(db', x) && x in db'.orders && db'.sagas[x].timeoutAt == now + SAGA_TIMEOUT
            else
              && (y in db'.orders <==> y in db.orders) && (y in db'.sagas <==> y in db.sagas)
              && (y in db.sagas ==> db'.sagas[y] == db.sagas[y])
  {
  }

  lemma {:induction false} OneMoreAdded(
    db: OrderDb, before: OrderDb, base: OrderId, j: nat, w: nat, now: Time, x: OrderId)
    requires w > 0 && AddedOrSame(db, before, base, j, w - 1, now + SAGA_TIMEOUT, x)
    requires base + SWEEP_SIZE * j + w - 1 !in before.orders
    ensures var last := base + SWEEP_SIZE * j + w - 1;
            var db' := OrderNext(before, Create(last, 0, LINES, None, now));
            AddedOrSame(db, db', base, j, w, now + SAGA_TIMEOUT, x)
  {
    CreateAdds(before, base + SWEEP_SIZE * j + w - 1, now, x);
  }

  lemma {:induction false} CreatesAdd(db: OrderDb, base: OrderId, j: nat, w: nat, now: Time, x: OrderId)
    requires forall y: OrderId | InBatch(y, base, j, w) :: y !in db.orders
    ensures AddedOrSame(db, OrderRun(db, Creates(base, j, w, now)), base, j, w, now + SAGA_TIMEOUT, x)
    decreases w
  {
    if w > 0 {
      var last := base + SWEEP_SIZE * j + w - 1;
      forall y: OrderId | InBatch(y, base, j, w - 1) ensures y !in db.orders { assert InBatch(y, base, j, w); }
      assert InBatch(last, base, j, w);
      CreatesAdd(db, base, j, w - 1, now, x);
      CreatesAdd(db, base, j, w - 1, now, last);
      RunSnoc(db, Creates(base, j, w - 1, now), Create(last, 0, LINES, None, now));
      OneMoreAdded(db, OrderRun(db, Creates(base, j, w - 1, now)), base, j, w, now, x);
    }
  }

  // ---- A steady state: batches lo to hi are waiting, one of them for each of the coming sweeps ----

  function TimeOf(start: Time, k: int): Time {
    start + SWEEP_INTERVAL * k
  }

  /** The batch an id is of. */
  function BatchOf(base: OrderId, x: OrderId): (j: nat)
    requires x >= base
  {
    assert (x - base) / SWEEP_SIZE >= 0;
    (x - base) / SWEEP_SIZE
  }

  datatype Load = Load(base: OrderId, w: nat, start: Time)

  /** Sagas older than the batches are overdue from the start; batch j is due just before sweep j, from lo to hi. */
  predicate SteadyAt(db: OrderDb, load: Load, lo: nat, hi: nat, x: OrderId) {
    if x < load.base then Running(db, x) ==> db.sagas[x].timeoutAt < load.start
    else
      var j := BatchOf(load.base, x);
      if lo <= j < hi && InBatch(x, load.base, j, load.w)
      then Running(db, x) && db.sagas[x].timeoutAt == TimeOf(load.start, j) - 1
      else !Running(db, x) && (j >= hi ==> x !in db.orders)
  }

  ghost predicate Steady(db: OrderDb, load: Load, lo: nat, hi: nat) {
    OrderInv(db) && load.w <= SWEEP_SIZE && forall x: OrderId :: SteadyAt(db, load, lo, hi, x)
  }

  /** Of the sagas older than the batches the same ones run. */
  ghost predicate OldOnesSame(db: OrderDb, db': OrderDb, base: OrderId) {
    forall x: OrderId | x < base :: Running(db', x) <==> Running(db, x)
  }

  lemma {:induction false} BatchIs(base: OrderId, x: OrderId, j: nat, w: nat)
    requires InBatch(x, base, j, w) && w <= SWEEP_SIZE
    ensures x >= base && BatchOf(base, x) == j
  {
  }

  /** When orders of the next batch are placed so that they are due just before their sweep. */
  function PlacedAt(start: Time, j: int): Time {
    TimeOf(start, j) - 1 - SAGA_TIMEOUT
  }

  lemma {:induction false} AddBatch(db: OrderDb, load: Load, lo: nat, hi: nat)
    requires Steady(db, load, lo, hi) && lo <= hi
    ensures var db' := OrderRun(db, Creates(load.base, hi, load.w, PlacedAt(load.start, hi)));
            Steady(db', load, lo, hi + 1) && OldOnesSame(db, db', load.base)
  {
    var ops, next := Creates(load.base, hi, load.w, PlacedAt(load.start, hi)), hi + 1;
    RunKeepsInv(db, ops);
    forall y: OrderId | InBatch(y, load.base, hi, load.w) ensures y !in db.orders {
      BatchIs(load.base, y, hi, load.w);
      assert SteadyAt(db, load, lo, hi, y);
    }
    forall x: OrderId
      ensures SteadyAt(OrderRun(db, ops), load, lo, next, x)
      ensures x < load.base ==> (Running(OrderRun(db, ops), x) <==> Running(db, x))
    {
      CreatesAdd(db, load.base, hi, load.w, PlacedAt(load.start, hi), x);
      AddedIsSteady(db, OrderRun(db, ops), load, lo, hi, x);
    }
  }

  lemma {:induction false} AddedIsSteady(db: OrderDb, db': OrderDb, load: Load, lo: nat, hi: nat, x: OrderId)
    requires SteadyAt(db, load, lo, hi, x) && lo <= hi && load.w <= SWEEP_SIZE && OrderInv(db)
    requires AddedOrSame(db, db', load.base, hi, load.w, TimeOf(load.start, hi) - 1, x)
    ensures SteadyAt(db', load, lo, hi + 1, x)
  {
    if InBatch(x, load.base, hi, load.w) { BatchIs(load.base, x, hi, load.w); }
  }

  // ---- A sweep in the steady state ----

  /** The query returns the unfailable sagas first chosen, and the batch that has just become due. */
  function ListAt(load: Load, chosen: seq<OrderId>, k: nat): seq<OrderId> {
    chosen + Ids(load.base, k, load.w)
  }

  ghost predicate ChosenOk(db: OrderDb, load: Load, chosen: seq<OrderId>, bad: set<OrderId>) {
    && |chosen| + load.w == SWEEP_SIZE
    && (forall i | 0 <= i < |chosen| :: chosen[i] in bad)
    && (forall i, j | 0 <= i < j < |chosen| :: chosen[i] != chosen[j])
    && (forall x | x in bad :: Running(db, x) && x < load.base)
  }

  lemma {:induction false} ListIsOk(
    db: OrderDb, load: Load, lo: nat, hi: nat, chosen: seq<OrderId>, bad: set<OrderId>)
    requires Steady(db, load, lo, hi) && lo < hi && ChosenOk(db, load, chosen, bad)
    ensures QueryOk(db, TimeOf(load.start, lo), ListAt(load, chosen, lo))
  {
    var list := ListAt(load, chosen, lo);
    forall i | 0 <= i < |list| ensures Expired(db, list[i], TimeOf(load.start, lo)) {
      assert SteadyAt(db, load, lo, hi, list[i]);
      if i >= |chosen| {
        BatchIs(load.base, list[i], lo, load.w);
      }
    }
  }

  lemma {:induction false} ListedIff(load: Load, chosen: seq<OrderId>, k: nat, bad: set<OrderId>, x: OrderId)
    requires forall i | 0 <= i < |chosen| :: chosen[i] in bad
    requires forall y | y in bad :: y < load.base
    ensures x in ListAt(load, chosen, k) && x !in bad <==> InBatch(x, load.base, k, load.w)
  {
    var ids := Ids(load.base, k, load.w);
    if InBatch(x, load.base, k, load.w) {
      assert ids[x - load.base - SWEEP_SIZE * k] == x;
      assert x in ids;
    }
  }

  /** Failing a list leaves every saga that is not a good one on it as it was. */
  lemma {:induction false} AttemptsEnd(db: OrderDb, list: seq<OrderId>, bad: set<OrderId>, x: OrderId)
    requires OrderInv(db)
    ensures var db' := OrderRun(db, Attempts(list, bad));
            && (x in db'.orders <==> x in db.orders)
            && (Running(db', x) <==> Running(db, x) && !(x in list && x !in bad))
            && (Running(db', x) ==> db'.sagas[x] == db.sagas[x])
  {
    SweepIsRun(db, list, bad);
    if x in db.sagas {
      SweepFailsExactlyRunning(db, list, bad, x);
    } else {
      SweepAddsNone(db, list, bad);
    }
  }

  lemma {:induction false} SweepAddsNone(db: OrderDb, list: seq<OrderId>, bad: set<OrderId>)
    requires db.orders.Keys == db.sagas.Keys
    ensures SweepNext(db, list, bad).orders.Keys == SweepNext(db, list, bad).sagas.Keys == db.sagas.Keys
    decreases |list|
  {
    if list != [] { SweepAddsNone(db, list[..|list| - 1], bad); }
  }

  lemma {:induction false} DropBatch(
    db: OrderDb, load: Load, lo: nat, hi: nat, chosen: seq<OrderId>, bad: set<OrderId>)
    requires Steady(db, load, lo, hi) && lo < hi && ChosenOk(db, load, chosen, bad)
    ensures var db' := OrderRun(db, Attempts(ListAt(load, chosen, lo), bad));
            Steady(db', load, lo + 1, hi) && OldOnesSame(db, db', load.base)
  {
    var list, next := ListAt(load, chosen, lo), lo + 1;
    var db' := OrderRun(db, Attempts(list, bad));
    RunKeepsInv(db, Attempts(list, bad));
    forall x: OrderId
      ensures SteadyAt(db', load, next, hi, x)
      ensures x < load.base ==> (Running(db', x) <==> Running(db, x))
    {
      AttemptsEnd(db, list, bad, x);
      ListedIff(load, chosen, lo, bad, x);
      DroppedIsSteady(db, db', load, lo, hi, x);
    }
  }

  lemma {:induction false} DroppedIsSteady(db: OrderDb, db': OrderDb, load: Load, lo: nat, hi: nat, x: OrderId)
    requires SteadyAt(db, load, lo, hi, x) && lo < hi && load.w <= SWEEP_SIZE
    requires x in db'.orders <==> x in db.orders
    requires Running(db', x) <==> Running(db, x) && !InBatch(x, load.base, lo, load.w)
    requires Running(db', x) ==> db'.sagas[x] == db.sagas[x]
    ensures SteadyAt(db', load, lo + 1, hi, x)
  {
    if InBatch(x, load.base, lo, load.w) { BatchIs(load.base, x, lo, load.w); }
  }

  // ---- Rounds in the steady state ----

  lemma {:induction false} RunAppend(db: OrderDb, a: seq<OrderOp>, b: seq<OrderOp>)
    ensures OrderRun(db, a + b) == OrderRun(OrderRun(db, a), b)
    decreases |b|
  {
    if b == [] {
      assert a + b == a;
    } else {
      var n := |b| - 1;
      var all := a + b;
      assert all[..|all| - 1] == a + b[..n] && all[|all| - 1] == b[n];
      RunAppend(db, a, b[..n]);
    }
  }

  /** The good sagas of the list are failed, and the batch that the eleventh sweep from here finds is placed. */
  function OpsAt(load: Load, chosen: seq<OrderId>, bad: set<OrderId>, k: nat): seq<OrderOp> {
    Attempts(ListAt(load, chosen, k), bad) + Creates(load.base, k + AHEAD, load.w, PlacedAt(load.start, k + AHEAD))
  }

  function RoundAt(load: Load, chosen: seq<OrderId>, bad: set<OrderId>, k: nat): Round {
    Round(TimeOf(load.start, k), ListAt(load, chosen, k), OpsAt(load, chosen, bad, k))
  }

  lemma {:induction false} SteadyRound(db: OrderDb, load: Load, chosen: seq<OrderId>, bad: set<OrderId>, k: nat)
    requires Steady(db, load, k, k + AHEAD) && ChosenOk(db, load, chosen, bad)
    ensures var db' := OrderRun(db, OpsAt(load, chosen, bad, k));
            && Steady(db', load, k + 1, k + 1 + AHEAD) && ChosenOk(db', load, chosen, bad)
            && OldOnesSame(db, db', load.base)
    ensures RoundOk(db, RoundAt(load, chosen, bad, k), bad)
  {
    var list := ListAt(load, chosen, k);
    var attempts := Attempts(list, bad);
    var creates := Creates(load.base, k + AHEAD, load.w, PlacedAt(load.start, k + AHEAD));
    ListIsOk(db, load, k, k + AHEAD, chosen, bad);
    forall o | o in list && o !in bad ensures Timeout(o) in attempts + creates { AttemptedIff(list, bad, o); }
    DropBatch(db, load, k, k + AHEAD, chosen, bad);
    AddBatch(OrderRun(db, attempts), load, k + 1, k + AHEAD);
    RunAppend(db, attempts, creates);
  }

  /** Only the next batch becomes due. */
  lemma {:induction false} BatchArrives(
    db: OrderDb, db': OrderDb, load: Load, bad: set<OrderId>, k: nat, x: OrderId)
    requires SteadyAt(db, load, k, k + AHEAD, x) && SteadyAt(db', load, k + 1, k + 1 + AHEAD, x)
    requires x < load.base && Running(db', x) ==> x in db.sagas && Running(db, x)
    requires x in Due(db', TimeOf(load.start, k + 1), bad) - Due(db, TimeOf(load.start, k), bad)
    ensures InBatch(x, load.base, k + 1, load.w)
  {
  }

  lemma {:induction false} FewArrive(db: OrderDb, db': OrderDb, load: Load, bad: set<OrderId>, k: nat)
    requires Steady(db, load, k, k + AHEAD) && Steady(db', load, k + 1, k + 1 + AHEAD)
    requires OldOnesSame(db, db', load.base)
    ensures |Due(db', TimeOf(load.start, k + 1), bad) - Due(db, TimeOf(load.start, k), bad)| <= load.w
  {
    var arrivals := Due(db', TimeOf(load.start, k + 1), bad) - Due(db, TimeOf(load.start, k), bad);
    var ids := Ids(load.base, k + 1, load.w);
    ElementsSize(ids);
    forall x | x in arrivals ensures x in Elements(ids) {
      assert SteadyAt(db, load, k, k + AHEAD, x) && SteadyAt(db', load, k + 1, k + 1 + AHEAD, x);
      BatchArrives(db, db', load, bad, k, x);
      assert ids[x - load.base - SWEEP_SIZE * (k + 1)] == x;
    }
    SubsetSize(arrivals, Elements(ids));
  }

  /** Orders are placed between this sweep and the next, and nothing else happens but what the sweep does. */
  predicate OnTime(round: Round) {
    forall op | op in round.ops ::
      op.Timeout? || (op.Create? && round.now <= op.now < round.now + SWEEP_INTERVAL)
  }

  lemma {:induction false} CreatesAt(base: OrderId, j: nat, w: nat, now: Time, op: OrderOp)
    requires op in Creates(base, j, w, now)
    ensures op.Create? && op.now == now
    decreases w
  {
    if op in Creates(base, j, w - 1, now) { CreatesAt(base, j, w - 1, now, op); }
  }

  lemma {:induction false} AttemptsTimeOut(list: seq<OrderId>, bad: set<OrderId>, op: OrderOp)
    requires op in Attempts(list, bad)
    ensures op.Timeout?
    decreases |list|
  {
    var before := Attempts(list[..|list| - 1], bad);
    if op in before { AttemptsTimeOut(list[..|list| - 1], bad, op); }
  }

  lemma {:induction false} RoundIsOnTime(load: Load, chosen: seq<OrderId>, bad: set<OrderId>, k: nat)
    ensures OnTime(RoundAt(load, chosen, bad, k))
  {
    forall op | op in OpsAt(load, chosen, bad, k)
      ensures op.Timeout? ||
              (op.Create? && TimeOf(load.start, k) <= op.now < TimeOf(load.start, k) + SWEEP_INTERVAL)
    {
      if op in Attempts(ListAt(load, chosen, k), bad) {
        AttemptsTimeOut(ListAt(load, chosen, k), bad, op);
      } else {
        CreatesAt(load.base, k + AHEAD, load.w, PlacedAt(load.start, k + AHEAD), op);
      }
    }
  }

  function RoundsFrom(load: Load, chosen: seq<OrderId>, bad: set<OrderId>, k: nat, n: nat): (rounds: seq<Round>)
    ensures |rounds| == n && forall i | 0 <= i < n :: rounds[i] == RoundAt(load, chosen, bad, k + i)
  {
    seq(n, i requires 0 <= i < n => RoundAt(load, chosen, bad, k + i))
  }

  lemma {:induction false} RoundsCons(
    db: OrderDb, round: Round, rest: seq<Round>, bad: set<OrderId>, arrivals: nat)
    requires RoundOk(db, round, bad)
    requires var db' := OrderRun(db, round.ops);
             && RoundsOk(db', rest, bad, arrivals)
             && (rest != [] ==> |Due(db', rest[0].now, bad) - Due(db, round.now, bad)| <= arrivals)
    ensures RoundsOk(db, [round] + rest, bad, arrivals)
    ensures AfterRounds(db, [round] + rest) == AfterRounds(OrderRun(db, round.ops), rest)
  {
    assert ([round] + rest)[1..] == rest;
  }

  lemma {:induction false} NextIsSteady(
    db: OrderDb, load: Load, chosen: seq<OrderId>, bad: set<OrderId>, o: OrderId, k: nat)
    requires Steady(db, load, k, k + AHEAD) && ChosenOk(db, load, chosen, bad)
    requires o < load.base && Running(db, o)
    ensures var round := RoundAt(load, chosen, bad, k);
            var db' := OrderRun(db, round.ops);
            && RoundOk(db, round, bad) && Running(db', o)
            && Steady(db', load, k + 1, k + 1 + AHEAD) && ChosenOk(db', load, chosen, bad)
            && |Due(db', TimeOf(load.start, k + 1), bad) - Due(db, round.now, bad)| <= load.w
  {
    SteadyRound(db, load, chosen, bad, k);
    FewArrive(db, OrderRun(db, OpsAt(load, chosen, bad, k)), load, bad, k);
  }

  lemma {:induction false} RoundsFromCons(load: Load, chosen: seq<OrderId>, bad: set<OrderId>, k: nat, n: nat)
    ensures RoundsFrom(load, chosen, bad, k, n + 1)
         == [RoundAt(load, chosen, bad, k)] + RoundsFrom(load, chosen, bad, k + 1, n)
  {
  }

  lemma {:induction false} SteadyRounds(
    db: OrderDb, load: Load, chosen: seq<OrderId>, bad: set<OrderId>, o: OrderId, k: nat, n: nat)
    requires Steady(db, load, k, k + AHEAD) && ChosenOk(db, load, chosen, bad)
    requires o < load.base && Running(db, o)
    ensures var rounds := RoundsFrom(load, chosen, bad, k, n);
            RoundsOk(db, rounds, bad, load.w) && Running(AfterRounds(db, rounds), o)
    decreases n
  {
    if n > 0 {
      var round, rest := RoundAt(load, chosen, bad, k), RoundsFrom(load, chosen, bad, k + 1, n - 1);
      NextIsSteady(db, load, chosen, bad, o, k);
      SteadyRounds(OrderRun(db, round.ops), load, chosen, bad, o, k + 1, n - 1);
      RoundsCons(db, round, rest, bad, load.w);
      RoundsFromCons(load, chosen, bad, k, n - 1);
    }
  }

  // ---- Getting there from any state ----

  /** The first m batches are placed. */
  function Prepare(load: Load, m: nat): seq<OrderOp> {
    if m == 0 then []
    else Prepare(load, m - 1) + Creates(load.base, m - 1, load.w, PlacedAt(load.start, m - 1))
  }

  lemma {:induction false} SameTwice(a: OrderDb, b: OrderDb, c: OrderDb, base: OrderId)
    requires OldOnesSame(a, b, base) && OldOnesSame(b, c, base)
    ensures OldOnesSame(a, c, base)
  {
  }

  lemma {:induction false} PrepareOne(db: OrderDb, before: OrderDb, load: Load, m: nat)
    requires before == OrderRun(db, Prepare(load, m))
    requires Steady(before, load, 0, m) && OldOnesSame(db, before, load.base)
    ensures var db' := OrderRun(db, Prepare(load, m + 1));
            Steady(db', load, 0, m + 1) && OldOnesSame(db, db', load.base)
  {
    var creates := Creates(load.base, m, load.w, PlacedAt(load.start, m));
    AddBatch(before, load, 0, m);
    RunAppend(db, Prepare(load, m), creates);
    SameTwice(db, before, OrderRun(before, creates), load.base);
  }

  lemma {:induction false} Prepared(db: OrderDb, load: Load, m: nat)
    requires Steady(db, load, 0, 0)
    ensures var db' := OrderRun(db, Prepare(load, m)); Steady(db', load, 0, m) && OldOnesSame(db, db', load.base)
    decreases m
  {
    if m > 0 {
      Prepared(db, load, m - 1);
      PrepareOne(db, OrderRun(db, Prepare(load, m - 1)), load, m - 1);
    }
  }

  /** A time past the deadlines of all these sagas. */
  lemma {:induction false} PastDeadlines(db: OrderDb, some: set<OrderId>) returns (now: Time)
    requires forall x | x in some :: x in db.sagas
    ensures forall x | x in some :: db.sagas[x].timeoutAt < now
    decreases |some|
  {
    if some == {} {
      now := 0;
    } else {
      var x :| x in some;
      now := PastDeadlines(db, some - {x});
      if now <= db.sagas[x].timeoutAt { now := db.sagas[x].timeoutAt + 1; }
    }
  }

  lemma {:induction false} AboveAll(some: set<OrderId>) returns (base: OrderId)
    ensures forall x | x in some :: x < base
    decreases |some|
  {
    if some == {} {
      base := 0;
    } else {
      var x :| x in some;
      var below := AboveAll(some - {x});
      base := if below <= x then x + 1 else below;
      forall y | y in some ensures y < base {
        if y != x { assert y in some - {x}; }
      }
    }
  }

  lemma {:induction false} ListOf(some: set<OrderId>, n: nat) returns (list: seq<OrderId>)
    requires n <= |some|
    ensures |list| == n && forall i | 0 <= i < n :: list[i] in some
    ensures forall i, j | 0 <= i < j < n :: list[i] != list[j]
    decreases n
  {
    if n == 0 {
      list := [];
    } else {
      var x :| x in some;
      var rest := ListOf(some - {x}, n - 1);
      list := rest + [x];
      forall i: nat | i < n - 1 ensures list[i] != x { assert rest[i] in some - {x}; }
    }
  }

  /** Sweeps thirty seconds apart, orders placed only as time goes by, and o left out of every one of n sweeps. */
  ghost predicate LeftOut(db: OrderDb, bad: set<OrderId>, arrivals: nat, o: OrderId, n: nat)
    requires o in db.sagas
  {
    exists rounds: seq<Round> | |rounds| == n && RoundsOk(db, rounds, bad, arrivals) ::
      Overdue(db, rounds, o) && ClockRuns(rounds) && Running(AfterRounds(db, rounds), o)
  }

  predicate ClockRuns(rounds: seq<Round>) {
    && (forall i | 0 <= i < |rounds| :: OnTime(rounds[i]))
    && (forall i | 0 < i < |rounds| :: rounds[i].now == rounds[i - 1].now + SWEEP_INTERVAL)
  }

  lemma {:induction false} RoundTimes(load: Load, chosen: seq<OrderId>, bad: set<OrderId>, n: nat)
    ensures var rounds := RoundsFrom(load, chosen, bad, 0, n);
            forall i | 0 <= i < n :: rounds[i].now == TimeOf(load.start, i)
  {
  }

  lemma {:induction false} RoundOfIndex(load: Load, chosen: seq<OrderId>, bad: set<OrderId>, n: nat, i: nat)
    requires i < n
    ensures OnTime(RoundsFrom(load, chosen, bad, 0, n)[i])
  {
    RoundIsOnTime(load, chosen, bad, i);
    assert RoundsFrom(load, chosen, bad, 0, n)[i] == RoundAt(load, chosen, bad, 0 + i);
  }

  /** The clock of rounds that start at some time after o's deadline and are a sweep interval apart. */
  lemma {:induction false} ClockOf(db: OrderDb, rounds: seq<Round>, start: Time, o: OrderId)
    requires o in db.sagas && db.sagas[o].timeoutAt < start
    requires forall i | 0 <= i < |rounds| :: rounds[i].now == TimeOf(start, i)
    requires forall i | 0 <= i < |rounds| :: OnTime(rounds[i])
    ensures Overdue(db, rounds, o) && ClockRuns(rounds)
  {
  }

  lemma {:induction false} MoreArriveThanAllowed(
    db: OrderDb, rounds: seq<Round>, bad: set<OrderId>, fewer: nat, arrivals: nat)
    requires RoundsOk(db, rounds, bad, fewer) && fewer <= arrivals
    ensures RoundsOk(db, rounds, bad, arrivals)
    decreases |rounds|
  {
    if rounds != [] {
      MoreArriveThanAllowed(OrderRun(db, rounds[0].ops), rounds[1..], bad, fewer, arrivals);
    }
  }

  lemma {:induction false} LeftOutFrom(
    db: OrderDb, load: Load, chosen: seq<OrderId>, bad: set<OrderId>, arrivals: nat, o: OrderId, n: nat)
    requires Steady(db, load, 0, AHEAD) && ChosenOk(db, load, chosen, bad) && load.w <= arrivals
    requires o < load.base && Running(db, o)
    ensures LeftOut(db, bad, arrivals, o, n)
  {
    var rounds := RoundsFrom(load, chosen, bad, 0, n);
    SteadyRounds(db, load, chosen, bad, o, 0, n);
    MoreArriveThanAllowed(db, rounds, bad, load.w, arrivals);
    assert SteadyAt(db, load, 0, AHEAD, o);
    RoundTimes(load, chosen, bad, n);
    forall i: nat | i < n ensures OnTime(rounds[i]) { RoundOfIndex(load, chosen, bad, n, i); }
    ClockOf(db, rounds, load.start, o);
  }

  /**
   * With f sagas that cannot be failed and a arrivals between sweeps, f + a >= 20 leaves any running saga out: after
   * some orders have been placed, there are arbitrarily many sweeps in which it is overdue and none of which lists it.
   */
  lemma {:induction false} OverloadStarves(db: OrderDb, bad: set<OrderId>, arrivals: nat, o: OrderId)
    returns (start: seq<OrderOp>)
    requires OrderInv(db) && Running(db, o) && o !in bad && (forall x | x in bad :: Running(db, x))
    requires |bad| + arrivals >= SWEEP_SIZE
    ensures Running(OrderRun(db, start), o) && forall n: nat :: LeftOut(OrderRun(db, start), bad, arrivals, o, n)
  {
    var w := if |bad| >= SWEEP_SIZE then 0 else SWEEP_SIZE - |bad|;
    var chosen := ListOf(bad, SWEEP_SIZE - w);
    var base := AboveAll(db.sagas.Keys);
    var time := PastDeadlines(db, db.sagas.Keys);
    var load := Load(base, w, time);
    forall x: OrderId ensures SteadyAt(db, load, 0, 0, x) {}
    start := Prepare(load, AHEAD);
    Prepared(db, load, AHEAD);
    forall n: nat ensures LeftOut(OrderRun(db, start), bad, arrivals, o, n) {
      LeftOutFrom(OrderRun(db, start), load, chosen, bad, arrivals, o, n);
    }
  }

  // ---- Exactly when every overdue saga ends ----

  /** From the n-th round on o has ended, whatever the queries return and whatever else runs. */
  ghost predicate EndsWithin(db: OrderDb, bad: set<OrderId>, arrivals: nat, o: OrderId, n: nat)
    requires o in db.sagas
  {
    forall rounds: seq<Round> | |rounds| >= n && RoundsOk(db, rounds, bad, arrivals) && Overdue(db, rounds, o) ::
      Ended(AfterRounds(db, rounds), o)
  }

  /** Whatever happens first, so many sweeps after that suffice. */
  ghost predicate CertainToEnd(db: OrderDb, bad: set<OrderId>, arrivals: nat, o: OrderId) {
    forall start: seq<OrderOp> | Running(OrderRun(db, start), o) ::
      exists n: nat :: EndsWithin(OrderRun(db, start), bad, arrivals, o, n)
  }

  lemma {:induction false} UnderloadEnds(db: OrderDb, bad: set<OrderId>, arrivals: nat, o: OrderId)
    requires OrderInv(db) && Running(db, o) && o !in bad && |bad| + arrivals < SWEEP_SIZE
    ensures exists n: nat :: EndsWithin(db, bad, arrivals, o, n)
  {
    var healthy := set x | x in db.sagas && x !in bad;
    var d := SWEEP_SIZE - |bad| - arrivals;
    var n := CeilDiv(|healthy|, d);
    CeilDivCovers(|healthy|, d);
    forall rounds: seq<Round> | |rounds| >= n && RoundsOk(db, rounds, bad, arrivals) && Overdue(db, rounds, o)
      ensures Ended(AfterRounds(db, rounds), o)
    {
      MulMonotone(n, |rounds|, d);
      assert o in healthy;
      SubsetSize(Due(db, rounds[0].now, bad), healthy);
      DueSagaEnds(db, rounds, bad, arrivals, o, d);
    }
    assert EndsWithin(db, bad, arrivals, o, n);
  }

  lemma {:induction false} LeftOutDoesNotEnd(db: OrderDb, bad: set<OrderId>, arrivals: nat, o: OrderId, n: nat)
    requires o in db.sagas && LeftOut(db, bad, arrivals, o, n)
    ensures !EndsWithin(db, bad, arrivals, o, n)
  {
    var rounds: seq<Round> :|
      |rounds| == n && RoundsOk(db, rounds, bad, arrivals) &&
      Overdue(db, rounds, o) && ClockRuns(rounds) && Running(AfterRounds(db, rounds), o);
    assert !Ended(AfterRounds(db, rounds), o);
  }

  /**
   * While f of the running sagas cannot be failed and up to a healthy ones become due between two sweeps, each other
   * running saga is certain to end some sweeps after its deadline if and only if f + a < 20.
   */
  lemma {:induction false} EndsIff(db: OrderDb, bad: set<OrderId>, arrivals: nat, o: OrderId)
    requires OrderInv(db) && Running(db, o) && o !in bad && (forall x | x in bad :: Running(db, x))
    ensures CertainToEnd(db, bad, arrivals, o) <==> |bad| + arrivals < SWEEP_SIZE
  {
    if |bad| + arrivals < SWEEP_SIZE {
      forall start: seq<OrderOp> | Running(OrderRun(db, start), o)
        ensures exists n: nat :: EndsWithin(OrderRun(db, start), bad, arrivals, o, n)
      {
        RunKeepsInv(db, start);
        UnderloadEnds(OrderRun(db, start), bad, arrivals, o);
      }
    } else {
      var start := OverloadStarves(db, bad, arrivals, o);
      forall n: nat ensures !EndsWithin(OrderRun(db, start), bad, arrivals, o, n) {
        LeftOutDoesNotEnd(OrderRun(db, start), bad, arrivals, o, n);
      }
    }
  }
}
