/** A pass of any relay over the whole outbox table is a run of the system's relay steps. */
module RelayPass {
  import opened Common
  import opened Events
  import opened System
  import opened Delivery
  import R = Relay

  /** For each row of the outbox table which one it is, or none for a row of a service that is not modelled. */
  type Table = seq<Option<RowId>>

  type Rows = seq<R.Row<Option<Event>>>

  /** A table row shows an outbox row of the system: its message, and a sentAt when it is marked. */
  predicate ShowsRow(s: Sys, id: RowId, row: R.Row<Option<Event>>) {
    RowExists(s, id) && row.event == Some(EventOf(s, id)) && (row.sentAt.Some? <==> id in s.marked)
  }

  /** The table holds the outbox rows of all services, each once, in any order and between rows of other services. */
  ghost predicate Shows(s: Sys, table: Table, rows: Rows) {
    && |table| == |rows|
    && (forall i | 0 <= i < |rows| ::
          if table[i].Some? then ShowsRow(s, table[i].value, rows[i]) else rows[i].event.None?)
    && (forall i, j | 0 <= i < j < |table| && table[i].Some? :: table[i] != table[j])
    && (forall id: RowId | RowExists(s, id) :: Some(id) in table)
  }

  // ---- What a pass leaves behind ----

  /** The outbox rows that working through the list marks. */
  function Marks(table: Table, fate: nat -> R.Fate, ids: seq<nat>): set<RowId>
    requires forall k | 0 <= k < |ids| :: ids[k] < |table|
  {
    if ids == [] then {}
    else
      var id := ids[|ids| - 1];
      Marks(table, fate, ids[..|ids| - 1]) +
      if table[id].Some? && fate(id).Delivered? then {table[id].value} else {}
  }

  lemma {:induction false} MarksIff(table: Table, fate: nat -> R.Fate, ids: seq<nat>, row: RowId)
    requires forall k | 0 <= k < |ids| :: ids[k] < |table|
    ensures row in Marks(table, fate, ids)
       <==> exists k | 0 <= k < |ids| :: table[ids[k]] == Some(row) && fate(ids[k]).Delivered?
    decreases |ids|
  {
    if ids != [] {
      var n := |ids| - 1;
      MarksIff(table, fate, ids[..n], row);
      assert forall k | 0 <= k < n :: ids[..n][k] == ids[k];
    }
  }

  /** The messages of the three services among those that were published. */
  function Values(messages: seq<R.Message<Option<Event>>>): set<Event> {
    set message | message in messages && message.value.Some? :: message.value.value
  }

  lemma {:induction false} ValuesAppend(a: seq<R.Message<Option<Event>>>, b: seq<R.Message<Option<Event>>>)
    ensures Values(a + b) == Values(a) + Values(b)
  {
  }

  /** The system after working through the list. */
  function AfterList(s: Sys, table: Table, rows: Rows, fate: nat -> R.Fate, ids: seq<nat>): Sys
    requires |table| == |rows| && R.AllPending(rows, ids)
  {
    s.(net := s.net + Values(R.Sent(rows, fate, ids)), marked := s.marked + Marks(table, fate, ids))
  }

  lemma {:induction false} SentOne(rows: Rows, fate: nat -> R.Fate, ids: seq<nat>)
    requires ids != [] && R.AllPending(rows, ids)
    ensures var n := |ids| - 1;
            var event := rows[ids[n]].event;
            Values(R.Sent(rows, fate, ids)) == Values(R.Sent(rows, fate, ids[..n])) +
              if event.None? || fate(ids[n]).SendFails? then {} else {event.value}
  {
    var n := |ids| - 1;
    var sent := R.Attempt(rows, fate, ids[n]);
    ValuesAppend(R.Sent(rows, fate, ids[..n]), sent);
    var event := rows[ids[n]].event;
    assert Values(sent) == if event.None? || fate(ids[n]).SendFails? then {} else {event.value};
  }

  /** One more row of a service that is modelled, or of one that is not. */
  lemma {:induction false} AfterOne(s: Sys, table: Table, rows: Rows, fate: nat -> R.Fate, ids: seq<nat>)
    requires Shows(s, table, rows) && ids != [] && R.AllPending(rows, ids)
    ensures var n := |ids| - 1;
            var before, id := AfterList(s, table, rows, fate, ids[..n]), ids[n];
            AfterList(s, table, rows, fate, ids) ==
              if table[id].Some? then AfterRow(before, table[id].value, fate(id)) else before
  {
    SentOne(rows, fate, ids);
  }

  // ---- The pass as steps ----

  predicate IsRelayStep(step: Step) {
    step.Pick? || step.Send? || step.Mark? || step.Abandon?
  }

  predicate OnlyRelay(steps: seq<Step>) {
    forall step | step in steps :: IsRelayStep(step)
  }

  /** A row that the list has not come to is not marked yet. */
  lemma {:induction false} StillUnmarked(s: Sys, table: Table, rows: Rows, fate: nat -> R.Fate, ids: seq<nat>)
    requires Shows(s, table, rows) && ids != [] && R.AllPending(rows, ids) && R.Distinct(ids)
    requires table[ids[|ids| - 1]].Some?
    ensures var n := |ids| - 1;
            var row := table[ids[n]].value;
            RowExists(s, row) && row !in AfterList(s, table, rows, fate, ids[..n]).marked
  {
    var n := |ids| - 1;
    var row := table[ids[n]].value;
    MarksIff(table, fate, ids[..n], row);
    assert ShowsRow(s, row, rows[ids[n]]);
  }

  lemma {:induction false} ListOne(
    steps: seq<Step>, s: Sys, table: Table, rows: Rows, fate: nat -> R.Fate, ids: seq<nat>) returns (more: seq<Step>)
    requires Shows(s, table, rows) && ids != [] && R.AllPending(rows, ids) && R.Distinct(ids)
    requires EndsIn(steps, AfterList(s, table, rows, fate, ids[..|ids| - 1]))
    ensures EndsIn(steps + more, AfterList(s, table, rows, fate, ids)) && OnlyRelay(more)
  {
    var id := ids[|ids| - 1];
    AfterOne(s, table, rows, fate, ids);
    if table[id].Some? {
      more := RowSteps(table[id].value, fate(id));
      StillUnmarked(s, table, rows, fate, ids);
      RowStepsRun(steps, table[id].value, fate(id));
    } else {
      more := [];
      assert steps + [] == steps;
    }
  }

  lemma {:induction false} EmptyList(s: Sys, table: Table, rows: Rows, fate: nat -> R.Fate)
    requires |table| == |rows|
    ensures AfterList(s, table, rows, fate, []) == s
  {
  }

  lemma {:induction false} ListRun(
    steps: seq<Step>, s: Sys, table: Table, rows: Rows, fate: nat -> R.Fate, ids: seq<nat>) returns (more: seq<Step>)
    requires EndsIn(steps, s) && Shows(s, table, rows) && R.AllPending(rows, ids) && R.Distinct(ids)
    ensures EndsIn(steps + more, AfterList(s, table, rows, fate, ids)) && OnlyRelay(more)
    decreases |ids|
  {
    if ids == [] {
      more := [];
      assert steps + [] == steps;
      EmptyList(s, table, rows, fate);
    } else {
      var front := ListRun(steps, s, table, rows, fate, ids[..|ids| - 1]);
      var last := ListOne(steps + front, s, table, rows, fate, ids);
      more := front + last;
      Associative(steps, front, last);
    }
  }

  /** After the pass the table shows the system as the pass has left it. */
  lemma {:induction false} ShowsPassed(
    s: Sys, table: Table, rows: Rows, fate: nat -> R.Fate, batch: seq<nat>, now: R.Time, i: nat)
    requires Shows(s, table, rows) && R.AllPending(rows, batch) && i < |rows| && table[i].Some?
    ensures ShowsRow(AfterList(s, table, rows, fate, batch), table[i].value, R.Passed(rows, fate, now, batch)[i])
  {
    var row := table[i].value;
    assert ShowsRow(s, row, rows[i]);
    MarksIff(table, fate, batch, row);
    if i in batch && fate(i).Delivered? {
      var k :| 0 <= k < |batch| && batch[k] == i;
      assert table[batch[k]] == Some(row);
    }
  }

  /**
   * Refinement: a pass of any relay, over the rows of all services and whatever fails in it, is a run of the system's
   * pick, send, mark and abandon steps. The messages on the network and the marks afterwards are those the pass
   * leaves, and no row stays in its hands.
   */
  lemma {:induction false} RelayIsSteps(
    steps: seq<Step>, table: Table, rows: Rows, fate: nat -> R.Fate, batch: seq<nat>, now: R.Time)
    returns (more: seq<Step>)
    requires ValidRun(steps) && Shows(Run(steps), table, rows) && R.BatchOk(rows, batch)
    ensures ValidRun(steps + more) && OnlyRelay(more)
    ensures var s, s' := Run(steps), Run(steps + more);
            && SameTables(s, s') && s'.held == s.held
            && s'.net == s.net + Values(R.Sent(rows, fate, batch))
            && Shows(s', table, R.Passed(rows, fate, now, batch))
  {
    more := ListRun(steps, Run(steps), table, rows, fate, batch);
    forall i: nat | i < |rows| && table[i].Some? {
      ShowsPassed(Run(steps), table, rows, fate, batch, now, i);
    }
  }
}
