/** The timeout sweep over time: when it reaches a saga while some cannot be failed and others go on expiring. */
module Timeouts {
  import opened Common
  import opened Events
  import opened OrderSaga

  /** What a sweep's loop does to the tables, as timeout operations. */
  function Attempts(list: seq<OrderId>, bad: set<OrderId>): seq<OrderOp> {
    if list == [] then []
    else
      var last := list[|list| - 1];
      Attempts(list[..|list| - 1], bad) + if last in bad then [] else [Timeout(last)]
  }

  lemma {:induction false} AttemptsSnoc(list: seq<OrderId>, bad: set<OrderId>)
    requires list != []
    ensures var n := |list| - 1;
            var before := Attempts(list[..n], bad);
            Attempts(list, bad) == if list[n] in bad then before else before + [Timeout(list[n])]
  {
  }

  /** A sweep is a run of the timeouts of the good sagas it lists. */
  lemma {:induction false} SweepIsRun(db: OrderDb, list: seq<OrderId>, bad: set<OrderId>)
    ensures SweepNext(db, list, bad) == OrderRun(db, Attempts(list, bad))
    decreases |list|
  {
    if list != [] {
      var n := |list| - 1;
      SweepIsRun(db, list[..n], bad);
      AttemptsSnoc(list, bad);
      if list[n] !in bad { RunSnoc(db, Attempts(list[..n], bad), Timeout(list[n])); }
    }
  }

  lemma {:induction false} RunSnoc(db: OrderDb, ops: seq<OrderOp>, op: OrderOp)
    ensures OrderRun(db, ops + [op]) == OrderNext(OrderRun(db, ops), op)
  {
    assert (ops + [op])[..|ops|] == ops;
  }

  /** Exactly the good sagas of a list are attempted. */
  lemma {:induction false} AttemptedIff(list: seq<OrderId>, bad: set<OrderId>, o: OrderId)
    ensures Timeout(o) in Attempts(list, bad) <==> o in list && o !in bad
    decreases |list|
  {
    if list != [] {
      AttemptedIff(list[..|list| - 1], bad, o);
      assert o in list <==> o in list[..|list| - 1] || o == list[|list| - 1];
    }
  }

  /** A sweep over any list, stale or not, keeps the invariant. */
  lemma {:induction false} SweepKeepsInv(db: OrderDb, list: seq<OrderId>, bad: set<OrderId>)
    requires OrderInv(db)
    ensures OrderInv(SweepNext(db, list, bad))
  {
    SweepIsRun(db, list, bad);
    RunKeepsInv(db, Attempts(list, bad));
  }

  lemma {:induction false} RunKeepsInv(db: OrderDb, ops: seq<OrderOp>)
    requires OrderInv(db)
    ensures OrderInv(OrderRun(db, ops))
    decreases |ops|
  {
    if ops != [] {
      RunKeepsInv(db, ops[..|ops| - 1]);
      OrderStepKeepsInv(OrderRun(db, ops[..|ops| - 1]), ops[|ops| - 1]);
    }
  }

  // ---- Rounds ----

  /** A query, and everything that happens until the next one: the sweep's attempts, in between any other operations. */
  datatype Round = Round(now: Time, list: seq<OrderId>, ops: seq<OrderOp>)

  function AfterRounds(db: OrderDb, rounds: seq<Round>): OrderDb
    decreases |rounds|
  {
    if rounds == [] then db else AfterRounds(OrderRun(db, rounds[0].ops), rounds[1..])
  }

  /** The healthy sagas that a query can find. */
  ghost function Due(db: OrderDb, now: Time, bad: set<OrderId>): set<OrderId> {
    set o | o in db.sagas && Expired(db, o, now) && o !in bad
  }

  lemma {:induction false} DueIs(db: OrderDb, now: Time, bad: set<OrderId>, due: set<OrderId>)
    requires forall x ::
      x in due <==> x in db.sagas && db.sagas[x].status == RUNNING && db.sagas[x].timeoutAt < now && x !in bad
    ensures due == Due(db, now, bad)
  {
  }

  /** The query may return the list, and each good saga on it is attempted. */
  ghost predicate RoundOk(db: OrderDb, round: Round, bad: set<OrderId>) {
    && QueryOk(db, round.now, round.list)
    && (forall o | o in round.list && o !in bad :: Timeout(o) in round.ops)
  }

  /** Rounds one after the other; from each query to the next, at most so many healthy sagas become due. */
  ghost predicate RoundsOk(db: OrderDb, rounds: seq<Round>, bad: set<OrderId>, arrivals: nat)
    decreases |rounds|
  {
    rounds == [] ||
    (var db' := OrderRun(db, rounds[0].ops);
     && RoundOk(db, rounds[0], bad)
     && (|rounds| > 1 ==> |Due(db', rounds[1].now, bad) - Due(db, rounds[0].now, bad)| <= arrivals)
     && RoundsOk(db', rounds[1..], bad, arrivals))
  }

  /** A sweep that nothing interrupts is such a round. */
  lemma {:induction false} SweepIsRound(db: OrderDb, now: Time, list: seq<OrderId>, bad: set<OrderId>)
    requires QueryOk(db, now, list)
    ensures var round := Round(now, list, Attempts(list, bad));
            RoundOk(db, round, bad) && AfterRounds(db, [round]) == SweepNext(db, list, bad)
  {
    forall o | o in list && o !in bad ensures Timeout(o) in Attempts(list, bad) { AttemptedIff(list, bad, o); }
    SweepIsRun(db, list, bad);
    assert AfterRounds(SweepNext(db, list, bad), [Round(now, list, Attempts(list, bad))][1..])
        == SweepNext(db, list, bad);
  }

  predicate Ended(db: OrderDb, o: OrderId) {
    o in db.orders && !Running(db, o)
  }

  lemma {:induction false} StaysEnded(db: OrderDb, ops: seq<OrderOp>, o: OrderId)
    requires OrderInv(db) && Ended(db, o)
    ensures Ended(OrderRun(db, ops), o)
  {
    EndedIsFinal(db, ops, o);
  }

  /** A saga keeps its deadline. */
  lemma {:induction false} KeepsDeadline(db: OrderDb, ops: seq<OrderOp>, o: OrderId)
    requires OrderInv(db) && o in db.orders
    ensures var db' := OrderRun(db, ops);
            o in db'.orders && o in db'.sagas && db'.sagas[o].timeoutAt == db.sagas[o].timeoutAt
    decreases |ops|
  {
    if ops != [] {
      var n := |ops| - 1;
      KeepsDeadline(db, ops[..n], o);
      DeadlineStep(OrderRun(db, ops[..n]), ops[n], o);
    }
  }

  lemma {:induction false} DeadlineStep(db: OrderDb, op: OrderOp, o: OrderId)
    requires o in db.orders && o in db.sagas
    ensures var db' := OrderNext(db, op);
            o in db'.orders && o in db'.sagas && db'.sagas[o].timeoutAt == db.sagas[o].timeoutAt
  {
    if op.order != o { OtherRowsSame(db, op, o); }
  }

  lemma {:induction false} TimeoutEnds(db: OrderDb, o: OrderId)
    requires OrderInv(db) && o in db.orders
    ensures Ended(OrderNext(db, Timeout(o)), o)
  {
    assert OrderOk(db, o);
  }

  /** An attempted saga has ended, whatever else happens before and after. */
  lemma {:induction false} AttemptedEnds(db: OrderDb, ops: seq<OrderOp>, o: OrderId)
    requires OrderInv(db) && o in db.orders && Timeout(o) in ops
    ensures Ended(OrderRun(db, ops), o)
    decreases |ops|
  {
    var n := |ops| - 1;
    RunKeepsInv(db, ops[..n]);
    if ops[n] == Timeout(o) {
      KeepsDeadline(db, ops[..n], o);
      TimeoutEnds(OrderRun(db, ops[..n]), o);
    } else {
      AttemptedEnds(db, ops[..n], o);
      EndedStep(OrderRun(db, ops[..n]), ops[n], o);
    }
  }

  lemma {:induction false} RoundsKeepInv(db: OrderDb, rounds: seq<Round>)
    requires OrderInv(db)
    ensures OrderInv(AfterRounds(db, rounds))
    decreases |rounds|
  {
    if rounds != [] {
      RunKeepsInv(db, rounds[0].ops);
      RoundsKeepInv(OrderRun(db, rounds[0].ops), rounds[1..]);
    }
  }

  lemma {:induction false} StaysEndedThrough(db: OrderDb, rounds: seq<Round>, o: OrderId)
    requires OrderInv(db) && Ended(db, o)
    ensures Ended(AfterRounds(db, rounds), o)
    decreases |rounds|
  {
    if rounds != [] {
      RunKeepsInv(db, rounds[0].ops);
      StaysEnded(db, rounds[0].ops, o);
      StaysEndedThrough(OrderRun(db, rounds[0].ops), rounds[1..], o);
    }
  }

  /** A full list that leaves out a due saga holds at least 20 - f good ones, all of them due. */
  lemma {:induction false} GoodListed(db: OrderDb, round: Round, bad: set<OrderId>, o: OrderId)
    requires RoundOk(db, round, bad) && o in Due(db, round.now, bad) && o !in round.list
    ensures var good := Elements(round.list) - bad;
            && |good| >= SWEEP_SIZE - |bad| && good <= Due(db, round.now, bad)
            && |Due(db, round.now, bad)| > |good|
  {
    var listed := Elements(round.list);
    ElementsSize(round.list);
    SubsetSize(listed * bad, bad);
    forall x | x in listed ensures Expired(db, x, round.now) {}
    SubsetSize(listed - bad + {o}, Due(db, round.now, bad));
  }

  /** A good saga on the list is not due at the next query. */
  lemma {:induction false} ListedNotDue(db: OrderDb, round: Round, bad: set<OrderId>, now: Time)
    requires OrderInv(db) && RoundOk(db, round, bad)
    ensures Due(OrderRun(db, round.ops), now, bad) !! Elements(round.list) - bad
  {
    forall x | x in Elements(round.list) - bad ensures Ended(OrderRun(db, round.ops), x) {
      assert Expired(db, x, round.now);
      AttemptedEnds(db, round.ops, x);
    }
  }

  /** Of those due at one query and not taken, and those that became due, are all that are due at the next. */
  lemma {:induction false} DueNext(before: set<OrderId>, after: set<OrderId>, good: set<OrderId>)
    requires good <= before && after !! good
    ensures |after| <= |before| - |good| + |after - before|
  {
    SubsetSize(after * before, before - good);
    assert before * good == good;
  }

  /** The saga's deadline is over at every round's query. */
  predicate Overdue(db: OrderDb, rounds: seq<Round>, o: OrderId)
    requires o in db.sagas
  {
    forall k | 0 <= k < |rounds| :: db.sagas[o].timeoutAt < rounds[k].now
  }

  /** One round leaves a due saga only if d fewer are due at the next. */
  lemma {:induction false} RoundShrinksDue(
    db: OrderDb, rounds: seq<Round>, bad: set<OrderId>, arrivals: nat, o: OrderId, d: nat)
    requires OrderInv(db) && |rounds| > 1 && RoundsOk(db, rounds, bad, arrivals)
    requires |bad| + arrivals + d == SWEEP_SIZE
    requires o in Due(db, rounds[0].now, bad) && o !in rounds[0].list
    ensures |Due(OrderRun(db, rounds[0].ops), rounds[1].now, bad)| <= |Due(db, rounds[0].now, bad)| - d
  {
    GoodListed(db, rounds[0], bad, o);
    ListedNotDue(db, rounds[0], bad, rounds[1].now);
    DueNext(
      Due(db, rounds[0].now, bad), Due(OrderRun(db, rounds[0].ops), rounds[1].now, bad),
      Elements(rounds[0].list) - bad);
  }

  /** A due saga is listed in the first round, or rounds are left for it. */
  lemma {:induction false} ListedOrLater(
    db: OrderDb, rounds: seq<Round>, bad: set<OrderId>, arrivals: nat, o: OrderId, d: nat)
    requires RoundsOk(db, rounds, bad, arrivals) && rounds != []
    requires |bad| + arrivals + d == SWEEP_SIZE && |rounds| * d >= |Due(db, rounds[0].now, bad)|
    requires o in Due(db, rounds[0].now, bad) && o !in rounds[0].list
    ensures |rounds| > 1
  {
    GoodListed(db, rounds[0], bad, o);
  }

  lemma {:induction false} DueSagaEnds(
    db: OrderDb, rounds: seq<Round>, bad: set<OrderId>, arrivals: nat, o: OrderId, d: nat)
    requires OrderInv(db) && RoundsOk(db, rounds, bad, arrivals) && |bad| + arrivals + d == SWEEP_SIZE
    requires o !in bad && o in db.orders && o in db.sagas && Overdue(db, rounds, o)
    requires rounds != [] && |rounds| * d >= |Due(db, rounds[0].now, bad)|
    ensures Ended(AfterRounds(db, rounds), o)
    decreases |rounds|
  {
    var db' := OrderRun(db, rounds[0].ops);
    RunKeepsInv(db, rounds[0].ops);
    KeepsDeadline(db, rounds[0].ops, o);
    if Ended(db, o) {
      StaysEndedThrough(db, rounds, o);
    } else if o in rounds[0].list {
      AttemptedEnds(db, rounds[0].ops, o);
      StaysEndedThrough(db', rounds[1..], o);
    } else {
      ListedOrLater(db, rounds, bad, arrivals, o, d);
      RoundShrinksDue(db, rounds, bad, arrivals, o, d);
      OneMore(|rounds| - 1, d);
      DueSagaEnds(db', rounds[1..], bad, arrivals, o, d);
    }
  }

  lemma {:induction false} EndedHasSaga(db: OrderDb, rounds: seq<Round>, o: OrderId)
    requires OrderInv(db) && Ended(AfterRounds(db, rounds), o)
    ensures var sagas := AfterRounds(db, rounds).sagas; o in sagas && sagas[o].status != RUNNING
  {
    RoundsKeepInv(db, rounds);
  }

  lemma {:induction false} EndsInTime(
    db: OrderDb, rounds: seq<Round>, bad: set<OrderId>, arrivals: nat, o: OrderId, n: nat, d: pos)
    requires OrderInv(db) && RoundsOk(db, rounds, bad, arrivals) && |bad| + arrivals + d == SWEEP_SIZE
    requires o !in bad && o in db.orders && o in db.sagas && Overdue(db, rounds, o)
    requires rounds != [] && n == |Due(db, rounds[0].now, bad)| && |rounds| >= CeilDiv(n, d)
    ensures var sagas := AfterRounds(db, rounds).sagas; o in sagas && sagas[o].status != RUNNING
  {
    CeilDivCovers(n, d);
    MulMonotone(CeilDiv(n, d), |rounds|, d);
    DueSagaEnds(db, rounds, bad, arrivals, o, d);
    EndedHasSaga(db, rounds, o);
  }

  /**
   * Whichever 20 the query returns: while f sagas cannot be failed and at most a healthy ones become due from one query
   * to the next, with d = 20 - f - a > 0, an overdue healthy saga has ended after ceil(n / d) sweeps, n being the
   * healthy sagas due at the first query. Anything else may run between and within the sweeps.
   */
  lemma {:induction false} OverdueSagaEnds(
    db: OrderDb, rounds: seq<Round>, bad: set<OrderId>, arrivals: nat, o: OrderId, due: set<OrderId>, d: pos)
    requires OrderInv(db) && RoundsOk(db, rounds, bad, arrivals) && |bad| + arrivals + d == 20
    requires o !in bad && o in db.orders && o in db.sagas && Overdue(db, rounds, o)
    requires rounds != [] && |rounds| >= CeilDiv(|due|, d)
    requires forall x :: x in due <==>
      x in db.sagas && db.sagas[x].status == RUNNING && db.sagas[x].timeoutAt < rounds[0].now && x !in bad
    ensures var sagas := AfterRounds(db, rounds).sagas; o in sagas && sagas[o].status != RUNNING
  {
    DueIs(db, rounds[0].now, bad, due);
    EndsInTime(db, rounds, bad, arrivals, o, |due|, d);
  }
}
