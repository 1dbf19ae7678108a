/**
 * The outbox relays. All services write to one outbox table, and the relay of each service works on all of its rows:
 * batches of the 50 oldest pending ones, each sent and then marked, failures skipped.
 */
module Relay {
  import opened Common

  type Time = int

  /** Rows written in one transaction have the same creation time. */
  datatype Row<T> = Row(event: T, createdAt: Time, sentAt: Option<Time>)

  /** A Kafka message: the id of the outbox row is its key. */
  datatype Message<T> = Message(key: nat, value: T)

  const BATCH: nat := 50

  /** What happens to one row of a batch: sent and marked, not sent, or sent although marking it failed. */
  datatype Fate = Delivered | SendFails | MarkFails

  predicate Pending<T>(rows: seq<Row<T>>, i: nat) {
    i < |rows| && rows[i].sentAt.None?
  }

  predicate Distinct(batch: seq<nat>) {
    forall j, k | 0 <= j < k < |batch| :: batch[j] != batch[k]
  }

  predicate AllPending<T>(rows: seq<Row<T>>, batch: seq<nat>) {
    forall k | 0 <= k < |batch| :: Pending(rows, batch[k])
  }

  predicate OldestFirst<T>(rows: seq<Row<T>>, batch: seq<nat>)
    requires AllPending(rows, batch)
  {
    forall j, k | 0 <= j < k < |batch| :: rows[batch[j]].createdAt <= rows[batch[k]].createdAt
  }

  /** What the query may return: at most 50 pending rows by age, and none that it leaves out is older than any. */
  ghost predicate BatchOk<T>(rows: seq<Row<T>>, batch: seq<nat>) {
    && |batch| <= BATCH && Distinct(batch) && AllPending(rows, batch) && OldestFirst(rows, batch)
    && (forall i: nat | Pending(rows, i) && i !in batch ::
          |batch| == BATCH && forall j | j in batch :: rows[j].createdAt <= rows[i].createdAt)
  }

  /** The table after a pass: exactly the delivered rows of the batch are marked. */
  function Passed<T>(rows: seq<Row<T>>, fate: nat -> Fate, now: Time, batch: seq<nat>): (r: seq<Row<T>>)
    ensures |r| == |rows|
  {
    seq(|rows|, i requires 0 <= i < |rows| =>
      if i in batch && fate(i) == Delivered then rows[i].(sentAt := Some(now)) else rows[i])
  }

  /** What trying to send one row publishes. */
  function Attempt<T>(rows: seq<Row<T>>, fate: nat -> Fate, id: nat): seq<Message<T>>
    requires id < |rows|
  {
    if fate(id) == SendFails then [] else [Message(id, rows[id].event)]
  }

  /** The table and the messages after working through a list of rows one by one. */
  function Marked<T>(rows: seq<Row<T>>, fate: nat -> Fate, now: Time, ids: seq<nat>): (r: seq<Row<T>>)
    requires AllPending(rows, ids)
    ensures |r| == |rows| && forall i | 0 <= i < |rows| :: r[i].(sentAt := None) == rows[i].(sentAt := None)
  {
    if ids == [] then rows
    else
      var id := ids[|ids| - 1];
      var before := Marked(rows, fate, now, ids[..|ids| - 1]);
      if fate(id) == Delivered then before[id := rows[id].(sentAt := Some(now))] else before
  }

  function Sent<T>(rows: seq<Row<T>>, fate: nat -> Fate, ids: seq<nat>): seq<Message<T>>
    requires AllPending(rows, ids)
  {
    if ids == [] then []
    else
      var id := ids[|ids| - 1];
      Sent(rows, fate, ids[..|ids| - 1]) + Attempt(rows, fate, id)
  }

  /** What is sent of a list: the event of each row under the row's id, but for those whose sending fails. */
  lemma {:induction false} SentIs<T>(rows: seq<Row<T>>, fate: nat -> Fate, ids: seq<nat>, message: Message<T>)
    requires AllPending(rows, ids)
    ensures message in Sent(rows, fate, ids) <==>
      message.key in ids && !fate(message.key).SendFails? && message.value == rows[message.key].event
    decreases |ids|
  {
    if ids != [] {
      var n := |ids| - 1;
      SentIs(rows, fate, ids[..n], message);
      assert message.key in ids <==> message.key in ids[..n] || message.key == ids[n];
    }
  }

  /** It is sent in the order of the list. */
  lemma {:induction false} SentInOrder<T>(rows: seq<Row<T>>, fate: nat -> Fate, ids: seq<nat>)
    requires AllPending(rows, ids) && forall k | 0 <= k < |ids| :: !fate(ids[k]).SendFails?
    ensures |Sent(rows, fate, ids)| == |ids|
    ensures forall k | 0 <= k < |ids| :: Sent(rows, fate, ids)[k] == Message(ids[k], rows[ids[k]].event)
    decreases |ids|
  {
    if ids != [] { SentInOrder(rows, fate, ids[..|ids| - 1]); }
  }

  /** Every marked row has itself been published, under its own id. */
  predicate Accounted<T(==)>(rows: seq<Row<T>>, published: seq<Message<T>>) {
    forall i | 0 <= i < |rows| :: rows[i].sentAt.Some? ==> Message(i, rows[i].event) in published
  }

  lemma {:induction false} SomeOldest<T>(rows: seq<Row<T>>, some: set<nat>) returns (oldest: nat)
    requires some != {} && forall i | i in some :: i < |rows|
    ensures oldest in some && forall i | i in some :: rows[oldest].createdAt <= rows[i].createdAt
    decreases |some|
  {
    oldest :| oldest in some;
    if some != {oldest} {
      assert some - {oldest} != {};
      var other := SomeOldest(rows, some - {oldest});
      if rows[other].createdAt < rows[oldest].createdAt { oldest := other; }
    }
  }

  /** The query half done: what is taken is older than the rest. */
  ghost predicate Taking<T>(rows: seq<Row<T>>, batch: seq<nat>, rest: set<nat>) {
    && Distinct(batch) && AllPending(rows, batch) && OldestFirst(rows, batch)
    && (forall i | i in rest :: Pending(rows, i) && i !in batch)
    && (forall i: nat | Pending(rows, i) :: i in rest || i in batch)
    && (forall i, k | i in rest && 0 <= k < |batch| :: rows[batch[k]].createdAt <= rows[i].createdAt)
  }

  lemma {:induction false} TakeNext<T>(rows: seq<Row<T>>, batch: seq<nat>, rest: set<nat>, i: nat)
    requires Taking(rows, batch, rest) && i in rest
    requires forall j | j in rest :: rows[i].createdAt <= rows[j].createdAt
    ensures Taking(rows, batch + [i], rest - {i})
  {
  }

  class OutboxRelay<T(==)> {
    /** The outbox table; a row's id is its position. */
    var rows: seq<Row<T>>
    /** Everything handed to Kafka so far. */
    var published: seq<Message<T>>

    constructor ()
      ensures rows == [] && published == []
    {
      rows, published := [], [];
    }

    /** Every row is still pending or has been published. */
    ghost predicate NothingLost()
      reads this
    {
      Accounted(rows, published)
    }

    /** A service writes a row in the transaction that makes the change it reports. */
    method Append(event: T, createdAt: Time)
      modifies this
      ensures rows == old(rows) + [Row(event, createdAt, None)] && published == old(published)
      ensures old(NothingLost()) ==> NothingLost()
    {
      rows := rows + [Row(event, createdAt, None)];
    }

    /** The query: the 50 oldest pending rows, those of one age in no particular order. */
    method FindPending() returns (batch: seq<nat>)
      ensures BatchOk(rows, batch)
      ensures |batch| <= 50 && forall j, k | 0 <= j < k < |batch| :: batch[j] != batch[k]
      ensures forall i | i in batch :: i < |rows| && rows[i].sentAt.None?
      ensures forall j, k | 0 <= j < k < |batch| :: rows[batch[j]].createdAt <= rows[batch[k]].createdAt
      ensures forall i | 0 <= i < |rows| && rows[i].sentAt.None? && i !in batch ::
                |batch| == 50 && forall j | j in batch :: rows[j].createdAt <= rows[i].createdAt
    {
      batch := [];
      var rest := set i: nat | i < |rows| && rows[i].sentAt.None?;
      while rest != {} && |batch| < BATCH
        invariant |batch| <= BATCH && Taking(rows, batch, rest)
        decreases |rest|
      {
        ghost var oldest := SomeOldest(rows, rest);
        var i :| i in rest && forall j | j in rest :: rows[i].createdAt <= rows[j].createdAt;
        TakeNext(rows, batch, rest, i);
        rest := rest - {i};
        batch := batch + [i];
      }
    }

    /** One row: nothing is marked unless it was sent first. */
    method SendAndMark(id: nat, fate: Fate, now: Time)
      requires id < |rows|
      modifies this
      ensures rows == if fate == Delivered then old(rows)[id := old(rows)[id].(sentAt := Some(now))] else old(rows)
      ensures published == old(published) + if fate == SendFails then [] else [Message(id, old(rows)[id].event)]
    {
      if fate != SendFails {
        published := published + [Message(id, rows[id].event)];
        if fate == Delivered {
          rows := rows[id := rows[id].(sentAt := Some(now))];
        }
      }
    }

    /** The loop over a batch: a failure is logged and the next row is tried. */
    method SendBatch(batch: seq<nat>, fate: nat -> Fate, now: Time)
      requires AllPending(rows, batch)
      modifies this
      ensures rows == Marked(old(rows), fate, now, batch)
      ensures published == old(published) + Sent(old(rows), fate, batch)
    {
      ghost var rows0, published0 := rows, published;
      var k := 0;
      while k < |batch|
        invariant k <= |batch|
        invariant rows == Marked(rows0, fate, now, batch[..k])
        invariant published == published0 + Sent(rows0, fate, batch[..k])
      {
        LoopStep(rows0, fate, now, batch, k);
        SendAndMark(batch[k], fate(batch[k]), now);
        k := k + 1;
      }
      assert batch[..|batch|] == batch;
    }

    /** One pass: send each row of the batch, mark it when send and update both succeed, carry on after errors. */
    method Relay(fate: nat -> Fate, now: Time) returns (batch: seq<nat>)
      modifies this
      ensures BatchOk(old(rows), batch)
      ensures rows == Passed(old(rows), fate, now, batch)
      ensures |rows| == |old(rows)| && forall i | 0 <= i < |rows| ::
                rows[i] == if i in batch && fate(i).Delivered? then old(rows)[i].(sentAt := Some(now)) else old(rows)[i]
      ensures published == old(published) + Sent(old(rows), fate, batch)
      ensures old(NothingLost()) ==> NothingLost()
    {
      ghost var rows0, published0 := rows, published;
      batch := FindPending();
      SendBatch(batch, fate, now);
      PassedIsMarked(rows0, fate, now, batch);
      if old(NothingLost()) {
        PassLosesNothing(rows0, published0, fate, now, batch);
      }
    }
  }

  /** One turn of the relay loop. */
  lemma {:induction false} LoopStep<T>(rows: seq<Row<T>>, fate: nat -> Fate, now: Time, ids: seq<nat>, k: nat)
    requires k < |ids| && AllPending(rows, ids)
    ensures Marked(rows, fate, now, ids[..k + 1]) ==
            (var before := Marked(rows, fate, now, ids[..k]);
             if fate(ids[k]) == Delivered then before[ids[k] := before[ids[k]].(sentAt := Some(now))] else before)
    ensures Sent(rows, fate, ids[..k + 1]) == Sent(rows, fate, ids[..k]) + Attempt(rows, fate, ids[k])
    ensures Attempt(rows, fate, ids[k])
         == if fate(ids[k]) == SendFails then [] else [Message(ids[k], Marked(rows, fate, now, ids[..k])[ids[k]].event)]
  {
    assert ids[..k + 1][..k] == ids[..k];
    var before := Marked(rows, fate, now, ids[..k]);
    assert before[ids[k]].(sentAt := None) == rows[ids[k]].(sentAt := None);
  }

  lemma {:induction false} MarkedOne<T>(rows: seq<Row<T>>, fate: nat -> Fate, now: Time, ids: seq<nat>, i: nat)
    requires AllPending(rows, ids) && i < |rows|
    ensures Marked(rows, fate, now, ids)[i]
         == if i in ids && fate(i) == Delivered then rows[i].(sentAt := Some(now)) else rows[i]
    decreases |ids|
  {
    if ids != [] {
      var n := |ids| - 1;
      MarkedOne(rows, fate, now, ids[..n], i);
      assert i in ids <==> i in ids[..n] || i == ids[n];
    }
  }

  /** Working through the batch row by row gives the table a whole pass is meant to leave. */
  lemma {:induction false} PassedIsMarked<T>(rows: seq<Row<T>>, fate: nat -> Fate, now: Time, batch: seq<nat>)
    requires AllPending(rows, batch)
    ensures Passed(rows, fate, now, batch) == Marked(rows, fate, now, batch)
  {
    forall i: nat | i < |rows| { MarkedOne(rows, fate, now, batch, i); }
  }

  /** A row of the batch whose send succeeds is among what was sent. */
  lemma {:induction false} DeliveredIsSent<T>(rows: seq<Row<T>>, fate: nat -> Fate, ids: seq<nat>, i: nat)
    requires AllPending(rows, ids) && i in ids && fate(i) != SendFails
    ensures Message(i, rows[i].event) in Sent(rows, fate, ids)
    decreases |ids|
  {
    var n := |ids| - 1;
    if i != ids[n] {
      assert i in ids[..n];
      DeliveredIsSent(rows, fate, ids[..n], i);
    }
  }

  lemma {:induction false} PassLosesNothing<T>(
    rows: seq<Row<T>>, published: seq<Message<T>>, fate: nat -> Fate, now: Time, batch: seq<nat>)
    requires Accounted(rows, published) && AllPending(rows, batch)
    ensures Accounted(Passed(rows, fate, now, batch), published + Sent(rows, fate, batch))
  {
    var rows' := Passed(rows, fate, now, batch);
    forall i | 0 <= i < |rows'| && rows'[i].sentAt.Some?
      ensures Message(i, rows'[i].event) in published + Sent(rows, fate, batch)
    {
      if rows[i].sentAt.None? {
        DeliveredIsSent(rows, fate, batch, i);
      }
    }
  }

  // ---- Progress: failing rows delay a healthy row by a bounded number of passes ----

  /**
   * A pass of one relay: the batch its query returned, the outcome of each send, the rows that other relays marked
   * meanwhile, and the rows appended before the next pass.
   */
  datatype Pass<!T> = Pass(batch: seq<nat>, fate: nat -> Fate, now: Time, others: set<nat>, appended: seq<Row<T>>)

  /** Rows that others mark are marked too. */
  function AlsoMarked<T>(rows: seq<Row<T>>, others: set<nat>, now: Time): (r: seq<Row<T>>)
    ensures |r| == |rows|
  {
    seq(|rows|, i requires 0 <= i < |rows| =>
      if i in others && rows[i].sentAt.None? then rows[i].(sentAt := Some(now)) else rows[i])
  }

  function AfterPass<T>(rows: seq<Row<T>>, pass: Pass<T>): (r: seq<Row<T>>)
    ensures |r| >= |rows|
  {
    AlsoMarked(Passed(rows, pass.fate, pass.now, pass.batch), pass.others, pass.now) + pass.appended
  }

  function AfterPasses<T>(rows: seq<Row<T>>, passes: seq<Pass<T>>): (r: seq<Row<T>>)
    ensures |r| >= |rows|
    decreases |passes|
  {
    if passes == [] then rows else AfterPasses(AfterPass(rows, passes[0]), passes[1..])
  }

  lemma {:induction false} AfterPassAt<T>(rows: seq<Row<T>>, pass: Pass<T>, i: nat)
    requires i < |rows|
    ensures var row := AfterPass(rows, pass)[i];
            && row.createdAt == rows[i].createdAt && row.event == rows[i].event
            && (row.sentAt.Some? <==>
                  rows[i].sentAt.Some? || i in pass.others || (i in pass.batch && pass.fate(i) == Delivered))
  {
  }

  /** The pending rows that the query does not put after row r: older ones, and those of its age. */
  ghost function NotAfter<T>(rows: seq<Row<T>>, r: nat): set<nat>
    requires r < |rows|
  {
    set i: nat | i < |rows| && Pending(rows, i) && rows[i].createdAt <= rows[r].createdAt
  }

  /** The healthy ones of these, and the bad ones, which are in r's way. */
  ghost function Healthy<T>(rows: seq<Row<T>>, bad: set<nat>, r: nat): set<nat>
    requires r < |rows|
  {
    NotAfter(rows, r) - bad
  }

  ghost function InTheWay<T>(rows: seq<Row<T>>, bad: set<nat>, r: nat): set<nat>
    requires r < |rows|
  {
    NotAfter(rows, r) * bad - {r}
  }

  /**
   * The query may return the batch, just the bad rows of it fail, and what is appended is younger than r, since the
   * transactions that began no later than r's have ended.
   */
  ghost predicate PassOk<T>(rows: seq<Row<T>>, pass: Pass<T>, bad: set<nat>, r: nat)
    requires r < |rows|
  {
    && BatchOk(rows, pass.batch)
    && (forall i | i in pass.batch :: pass.fate(i) == Delivered <==> i !in bad)
    && (forall row | row in pass.appended :: row.createdAt > rows[r].createdAt)
  }

  ghost predicate PassesOk<T>(rows: seq<Row<T>>, passes: seq<Pass<T>>, bad: set<nat>, r: nat)
    requires r < |rows|
    decreases |passes|
  {
    passes == [] ||
    (PassOk(rows, passes[0], bad, r) && PassesOk(AfterPass(rows, passes[0]), passes[1..], bad, r))
  }

  /** A marked row stays marked. */
  lemma {:induction false} StaysMarked<T>(rows: seq<Row<T>>, passes: seq<Pass<T>>, i: nat)
    requires i < |rows| && rows[i].sentAt.Some?
    ensures AfterPasses(rows, passes)[i].sentAt.Some?
    decreases |passes|
  {
    if passes != [] {
      AfterPassAt(rows, passes[0], i);
      StaysMarked(AfterPass(rows, passes[0]), passes[1..], i);
    }
  }

  /** Nothing but a row pending before is not after r when a pass is over. */
  lemma {:induction false} NotAfterShrinks<T>(rows: seq<Row<T>>, pass: Pass<T>, bad: set<nat>, r: nat, i: nat)
    requires r < |rows| && PassOk(rows, pass, bad, r) && i in NotAfter(AfterPass(rows, pass), r)
    ensures i in NotAfter(rows, r) && (i in pass.batch ==> i in bad)
  {
    AfterPassAt(rows, pass, r);
    if i < |rows| {
      AfterPassAt(rows, pass, i);
    }
  }

  /** A batch that leaves out the pending row r is full and holds none younger than r. */
  lemma {:induction false} LeavesOut<T>(rows: seq<Row<T>>, batch: seq<nat>, r: nat)
    requires BatchOk(rows, batch) && Pending(rows, r) && r !in batch
    ensures |Elements(batch)| == BATCH && Elements(batch) <= NotAfter(rows, r) - {r}
  {
    ElementsSize(batch);
  }

  /** Such a batch clears 50 rows less those in r's way, and they are healthy and not after r. */
  lemma {:induction false} BatchClears<T>(rows: seq<Row<T>>, pass: Pass<T>, bad: set<nat>, r: nat)
    requires r < |rows| && PassOk(rows, pass, bad, r) && Pending(rows, r) && r !in pass.batch && r !in bad
    ensures var good := Elements(pass.batch) - bad;
            && good <= Healthy(rows, bad, r) - {r} && |good| + |InTheWay(rows, bad, r)| >= BATCH
  {
    LeavesOut(rows, pass.batch, r);
    SubsetSize(Elements(pass.batch) * bad, InTheWay(rows, bad, r));
  }

  /** A pass sends row r, or leaves d fewer healthy rows not after it; in either case no more are in its way. */
  lemma {:induction false} PassSendsSome<T>(rows: seq<Row<T>>, pass: Pass<T>, bad: set<nat>, r: nat, d: nat)
    requires r < |rows| && r !in bad && PassOk(rows, pass, bad, r) && |InTheWay(rows, bad, r)| + d <= BATCH
    ensures var rows' := AfterPass(rows, pass);
            && |InTheWay(rows', bad, r)| + d <= BATCH
            && (rows'[r].sentAt.Some? || |Healthy(rows', bad, r)| + d <= |Healthy(rows, bad, r)|)
  {
    var rows' := AfterPass(rows, pass);
    forall i | i in NotAfter(rows', r) ensures i in NotAfter(rows, r) && (i in pass.batch ==> i in bad) {
      NotAfterShrinks(rows, pass, bad, r, i);
    }
    SubsetSize(InTheWay(rows', bad, r), InTheWay(rows, bad, r));
    AfterPassAt(rows, pass, r);
    if Pending(rows', r) {
      BatchClears(rows, pass, bad, r);
      var good := Elements(pass.batch) - bad;
      SubsetSize(Healthy(rows', bad, r), Healthy(rows, bad, r) - good);
      assert Healthy(rows, bad, r) * good == good;
    }
  }

  lemma {:induction false} EnoughPasses<T>(
    rows: seq<Row<T>>, passes: seq<Pass<T>>, bad: set<nat>, r: nat, n: nat, d: nat)
    requires r < |rows| && r !in bad && PassesOk(rows, passes, bad, r)
    requires |InTheWay(rows, bad, r)| + d <= BATCH && |passes| == n && n * d >= |Healthy(rows, bad, r)|
    ensures AfterPasses(rows, passes)[r].sentAt.Some?
    decreases |passes|
  {
    if rows[r].sentAt.Some? {
      StaysMarked(rows, passes, r);
    } else {
      PendingCounts(rows, bad, r);
      assert n == 0 ==> n * d == 0;
      PassSendsSome(rows, passes[0], bad, r, d);
      if AfterPass(rows, passes[0])[r].sentAt.Some? {
        StaysMarked(AfterPass(rows, passes[0]), passes[1..], r);
      } else {
        var left := AfterPass(rows, passes[0]);
        OneLess(n, d, |Healthy(rows, bad, r)|, |Healthy(left, bad, r)|);
        EnoughPasses(left, passes[1..], bad, r, n - 1, d);
      }
    }
  }

  lemma {:induction false} OneLess(n: pos, d: nat, before: nat, after: nat)
    requires n * d >= before && after + d <= before
    ensures (n - 1) * d >= after
  {
    OneMore(n - 1, d);
  }

  lemma {:induction false} PendingCounts<T>(rows: seq<Row<T>>, bad: set<nat>, r: nat)
    requires Pending(rows, r) && r !in bad
    ensures |Healthy(rows, bad, r)| >= 1
  {
    assert r in Healthy(rows, bad, r);
  }

  lemma {:induction false} SentInTime<T>(rows: seq<Row<T>>, passes: seq<Pass<T>>, bad: set<nat>, r: nat)
    requires r < |rows| && r !in bad && PassesOk(rows, passes, bad, r) && |InTheWay(rows, bad, r)| < BATCH
    requires |passes| >= CeilDiv(|Healthy(rows, bad, r)|, BATCH - |InTheWay(rows, bad, r)|)
    ensures AfterPasses(rows, passes)[r].sentAt.Some?
  {
    var n, d := |Healthy(rows, bad, r)|, BATCH - |InTheWay(rows, bad, r)|;
    CeilDivCovers(n, d);
    MulMonotone(CeilDiv(n, d), |passes|, d);
    EnoughPasses(rows, passes, bad, r, |passes|, d);
  }

  /**
   * If f < 50 failing rows are not after it, a healthy row with n healthy pending rows not after it, itself included,
   * is sent within ceil(n / (50 - f)) passes, whichever rows of one age the query prefers.
   */
  lemma {:induction false} HealthyRowIsSent<T>(rows: seq<Row<T>>, passes: seq<Pass<T>>, bad: set<nat>, r: nat)
    requires r < |rows| && r !in bad && PassesOk(rows, passes, bad, r)
    requires var inTheWay := set i | i in bad && i < |rows| && i != r && rows[i].sentAt == None &&
                                      rows[i].createdAt <= rows[r].createdAt;
             var healthy := set i: nat | i < |rows| && i !in bad && rows[i].sentAt == None &&
                                         rows[i].createdAt <= rows[r].createdAt;
             |inTheWay| < 50 && |passes| >= CeilDiv(|healthy|, 50 - |inTheWay|)
    ensures AfterPasses(rows, passes)[r].sentAt.Some?
  {
    assert InTheWay(rows, bad, r) == set i | i in bad && i < |rows| && i != r && rows[i].sentAt == None &&
                                             rows[i].createdAt <= rows[r].createdAt;
    assert Healthy(rows, bad, r) == set i: nat | i < |rows| && i !in bad && rows[i].sentAt == None &&
                                                 rows[i].createdAt <= rows[r].createdAt;
    SentInTime(rows, passes, bad, r);
  }

  // ---- Fifty failing rows: they may starve a row of their age, and always starve a younger one ----

  /** n of these rows, oldest first. */
  lemma {:induction false} TakeOldest<T>(rows: seq<Row<T>>, some: set<nat>, n: nat) returns (list: seq<nat>)
    requires n <= |some| && forall i | i in some :: i < |rows|
    ensures |list| == n && Distinct(list) && forall k | 0 <= k < n :: list[k] in some
    ensures forall j, k | 0 <= j < k < n :: rows[list[j]].createdAt <= rows[list[k]].createdAt
    ensures forall i, k | i in some && i !in list && 0 <= k < n :: rows[list[k]].createdAt <= rows[i].createdAt
    decreases n
  {
    if n == 0 {
      list := [];
    } else {
      var first := SomeOldest(rows, some);
      var rest := TakeOldest(rows, some - {first}, n - 1);
      list := [first] + rest;
      forall k: nat | k < n - 1 ensures rest[k] in some - {first} {}
    }
  }

  /** The query may leave r out when fifty other pending rows are not after it. */
  lemma {:induction false} BatchWithout<T>(rows: seq<Row<T>>, way: set<nat>, r: nat) returns (batch: seq<nat>)
    requires Pending(rows, r) && way <= NotAfter(rows, r) - {r} && |way| >= BATCH
    ensures BatchOk(rows, batch) && r !in batch
  {
    var others := (set i: nat | i < |rows| && Pending(rows, i)) - {r};
    SubsetSize(way, others);
    batch := TakeOldest(rows, others, BATCH);
    forall k: nat | k < BATCH ensures rows[batch[k]].createdAt <= rows[r].createdAt {
      if exists w :: w in way && w !in batch {
        var w :| w in way && w !in batch;
        assert rows[batch[k]].createdAt <= rows[w].createdAt;
      } else {
        AllOfThem(way, batch);
        assert batch[k] in way;
      }
    }
  }

  lemma {:induction false} AllOfThem(way: set<nat>, batch: seq<nat>)
    requires Distinct(batch) && |way| >= |batch| && forall w | w in way :: w in batch
    ensures way == Elements(batch)
  {
    ElementsSize(batch);
    SubsetSize(way, Elements(batch));
    if !(Elements(batch) <= way) {
      var x :| x in Elements(batch) && x !in way;
      SubsetSize(way, Elements(batch) - {x});
    }
  }

  /** Just the bad rows fail, nothing else happens, and r is left out each time. */
  lemma {:induction false} MayStarve<T>(rows: seq<Row<T>>, bad: set<nat>, r: nat, n: nat) returns (passes: seq<Pass<T>>)
    requires Pending(rows, r) && |InTheWay(rows, bad, r)| >= BATCH
    ensures |passes| == n && PassesOk(rows, passes, bad, r) && Pending(AfterPasses(rows, passes), r)
    decreases n
  {
    if n == 0 {
      passes := [];
    } else {
      var batch := BatchWithout(rows, InTheWay(rows, bad, r), r);
      var pass := Pass(batch, (i: nat) => if i in bad then SendFails else Delivered, 0, {}, []);
      StaysInTheWay(rows, pass, bad, r);
      var rest := MayStarve(AfterPass(rows, pass), bad, r, n - 1);
      passes := [pass] + rest;
      assert passes[1..] == rest;
    }
  }

  lemma {:induction false} StaysInTheWay<T>(rows: seq<Row<T>>, pass: Pass<T>, bad: set<nat>, r: nat)
    requires Pending(rows, r) && r !in pass.batch && pass.others == {}
    requires forall i | i in bad :: pass.fate(i) != Delivered
    ensures Pending(AfterPass(rows, pass), r)
    ensures |InTheWay(AfterPass(rows, pass), bad, r)| >= |InTheWay(rows, bad, r)|
  {
    AfterPassAt(rows, pass, r);
    forall i | i in InTheWay(rows, bad, r) ensures i in InTheWay(AfterPass(rows, pass), bad, r) {
      AfterPassAt(rows, pass, i);
    }
    SubsetSize(InTheWay(rows, bad, r), InTheWay(AfterPass(rows, pass), bad, r));
  }

  // ---- Exactly when a row is sent in the end ----

  /** From the n-th pass on the row is sent, whatever the queries return, others mark and services append. */
  ghost predicate SentWithin<T(!new)>(rows: seq<Row<T>>, bad: set<nat>, r: nat, n: nat)
    requires r < |rows|
  {
    forall passes: seq<Pass<T>> | |passes| >= n && PassesOk(rows, passes, bad, r) ::
      AfterPasses(rows, passes)[r].sentAt.Some?
  }

  lemma {:induction false} FewAreOvercome<T(!new)>(rows: seq<Row<T>>, bad: set<nat>, r: nat)
    requires r < |rows| && r !in bad && |InTheWay(rows, bad, r)| < BATCH
    ensures SentWithin(rows, bad, r, CeilDiv(|Healthy(rows, bad, r)|, BATCH - |InTheWay(rows, bad, r)|))
  {
    var n := CeilDiv(|Healthy(rows, bad, r)|, BATCH - |InTheWay(rows, bad, r)|);
    forall passes: seq<Pass<T>> | |passes| >= n && PassesOk(rows, passes, bad, r)
      ensures AfterPasses(rows, passes)[r].sentAt.Some?
    {
      SentInTime(rows, passes, bad, r);
    }
  }

  /** A healthy pending row is certain to be sent if and only if fewer than 50 failing pending rows are not after it. */
  lemma {:induction false} SentIff<T(!new)>(rows: seq<Row<T>>, bad: set<nat>, r: nat)
    requires Pending(rows, r) && r !in bad
    ensures (exists n: nat :: SentWithin(rows, bad, r, n)) <==> |InTheWay(rows, bad, r)| < BATCH
  {
    if |InTheWay(rows, bad, r)| < BATCH {
      FewAreOvercome(rows, bad, r);
    } else {
      forall n: nat ensures !SentWithin(rows, bad, r, n) {
        var passes := MayStarve(rows, bad, r, n);
      }
    }
  }

  // ---- Fifty older failing rows starve a row for good ----

  /** Passes of any relays one after the other, none of which marks a bad row. */
  ghost predicate PassesFail<T>(rows: seq<Row<T>>, passes: seq<Pass<T>>, bad: set<nat>)
    decreases |passes|
  {
    passes == [] ||
    (&& BatchOk(rows, passes[0].batch) && passes[0].others == {}
     && (forall i | i in bad :: passes[0].fate(i) != Delivered)
     && PassesFail(AfterPass(rows, passes[0]), passes[1..], bad))
  }

  /** The table before pass k. */
  function Before<T>(rows: seq<Row<T>>, passes: seq<Pass<T>>, k: nat): seq<Row<T>>
    requires k <= |passes|
  {
    AfterPasses(rows, passes[..k])
  }

  lemma {:induction false} FailEachTime<T>(rows: seq<Row<T>>, passes: seq<Pass<T>>, bad: set<nat>)
    requires forall k | 0 <= k < |passes| ::
               && BatchOk(Before(rows, passes, k), passes[k].batch) && passes[k].others == {}
               && forall i | i in bad :: passes[k].fate(i) != Delivered
    ensures PassesFail(rows, passes, bad)
    decreases |passes|
  {
    if passes != [] {
      assert Before(rows, passes, 0) == rows;
      var rest := passes[1..];
      forall k | 0 <= k < |rest|
        ensures Before(AfterPass(rows, passes[0]), rest, k) == Before(rows, passes, k + 1)
      {
        assert passes[..k + 1][1..] == rest[..k];
      }
      FailEachTime(AfterPass(rows, passes[0]), rest, bad);
    }
  }

  predicate AllOlder<T>(rows: seq<Row<T>>, bad: set<nat>, r: nat)
    requires r < |rows|
  {
    forall i | i in bad :: Pending(rows, i) && rows[i].createdAt < rows[r].createdAt
  }

  /** No batch has room for r. */
  lemma {:induction false} NoRoom<T>(rows: seq<Row<T>>, batch: seq<nat>, bad: set<nat>, r: nat)
    requires r < |rows| && BatchOk(rows, batch) && AllOlder(rows, bad, r) && |bad| >= BATCH
    ensures r !in batch
  {
    if r in batch {
      forall i | i in bad ensures i in batch {}
      ElementsSize(batch);
      SubsetSize(bad + {r}, Elements(batch));
    }
  }

  lemma {:induction false} NoPassSends<T>(rows: seq<Row<T>>, passes: seq<Pass<T>>, bad: set<nat>, r: nat)
    requires Pending(rows, r) && AllOlder(rows, bad, r) && |bad| >= BATCH && PassesFail(rows, passes, bad)
    ensures Pending(AfterPasses(rows, passes), r)
    decreases |passes|
  {
    if passes != [] {
      var rows' := AfterPass(rows, passes[0]);
      NoRoom(rows, passes[0].batch, bad, r);
      AfterPassAt(rows, passes[0], r);
      forall i | i in bad ensures Pending(rows', i) && rows'[i].createdAt < rows'[r].createdAt {
        AfterPassAt(rows, passes[0], i);
      }
      NoPassSends(rows', passes[1..], bad, r);
    }
  }

  /**
   * Behind fifty or more older pending rows that always fail, of whatever services, no relay ever sends a row: in no
   * number of passes of any relays, whatever is appended.
   */
  lemma {:induction false} FiftyFailuresStarve<T>(rows: seq<Row<T>>, passes: seq<Pass<T>>, bad: set<nat>, r: nat)
    requires r < |rows| && rows[r].sentAt == None && |bad| >= 50
    requires forall i | i in bad :: i < |rows| && rows[i].sentAt == None && rows[i].createdAt < rows[r].createdAt
    requires forall k | 0 <= k < |passes| ::
               && BatchOk(Before(rows, passes, k), passes[k].batch) && passes[k].others == {}
               && forall i | i in bad :: passes[k].fate(i) != Delivered
    ensures AfterPasses(rows, passes)[r].sentAt == None
  {
    FailEachTime(rows, passes, bad);
    NoPassSends(rows, passes, bad, r);
  }
}
