/** The distributed lock: a keyed token with a time to live, and bodies bracketed by acquire and release. */
module Lock {
  import opened Common

  /** Milliseconds. */
  type Time = int
  type Key = nat
  type Token = nat

  datatype Entry = Entry(token: Token, expiresAt: Time)
  type Store = map<Key, Entry>

  /** The unexpired token of a key. A map has room for one token per key. */
  function Holder(store: Store, key: Key, now: Time): Option<Token> {
    if key in store && now < store[key].expiresAt then Some(store[key].token) else None
  }

  /** SET key token PX ttl NX. */
  function AcquireNext(store: Store, key: Key, token: Token, ttl: pos, now: Time): Store {
    if Holder(store, key, now).Some? then store else store[key := Entry(token, now + ttl)]
  }

  /** The script: delete only if the key still holds this token. */
  function ReleaseNext(store: Store, key: Key, token: Token, now: Time): Store {
    if Holder(store, key, now) == Some(token) then store - {key} else store
  }

  class DistributedLock {
    var store: Store

    constructor ()
      ensures store == map[]
    {
      store := map[];
    }

    /** token is the fresh random value drawn by the call. */
    method Acquire(key: Key, ttl: pos, token: Token, now: Time) returns (res: Option<Token>)
      modifies this
      ensures store == AcquireNext(old(store), key, token, ttl, now)
      ensures res.None? <==> key in old(store) && now < old(store)[key].expiresAt
      ensures res.None? ==> store == old(store)
      ensures res.Some? ==> res.value == token && store == old(store)[key := Entry(token, now + ttl)]
      ensures res.Some? ==> Holder(store, key, now) == Some(token)
    {
      if key in store && now < store[key].expiresAt {
        return None;
      }
      store := store[key := Entry(token, now + ttl)];
      return Some(token);
    }

    /** Another holder's lock survives, whoever calls. */
    method Release(key: Key, token: Token, now: Time) returns (released: bool)
      modifies this
      ensures store == ReleaseNext(old(store), key, token, now)
      ensures released <==> key in old(store) && now < old(store)[key].expiresAt && old(store)[key].token == token
      ensures store == if released then old(store) - {key} else old(store)
      ensures forall k, t | (t != token || k != key) && Holder(old(store), k, now) == Some(t) ::
                Holder(store, k, now) == Some(t)
    {
      if key in store && now < store[key].expiresAt && store[key].token == token {
        store := store - {key};
        return true;
      }
      return false;
    }
  }

  // ---- Any number of withLock calls, on any keys ----

  /** One withLock call that got the lock. Its token is its position, so no two calls share one. */
  datatype Session = Session(key: Key, enteredAt: Time, ttl: pos, leftAt: Option<Time>)

  datatype Sys = Sys(store: Store, sessions: seq<Session>, clock: Time)

  /** A call enters or is turned away; a body ends, normally or by an exception, and releases. */
  datatype Step = Enter(key: Key, ttl: pos, at: Time) | Leave(session: nat, at: Time)

  predicate Enabled(s: Sys, step: Step) {
    step.at >= s.clock && (step.Leave? ==> step.session < |s.sessions| && s.sessions[step.session].leftAt.None?)
  }

  function Next(s: Sys, step: Step): Sys
    requires Enabled(s, step)
  {
    match step
    case Enter(key, ttl, at) =>
      if Holder(s.store, key, at).Some? then s.(clock := at) // could not acquire: the call throws
      else Sys(AcquireNext(s.store, key, |s.sessions|, ttl, at), s.sessions + [Session(key, at, ttl, None)], at)
    case Leave(i, at) =>
      var body := s.sessions[i];
      Sys(ReleaseNext(s.store, body.key, i, at), s.sessions[i := body.(leftAt := Some(at))], at)
  }

  function Deadline(session: Session): Time {
    session.enteredAt + session.ttl
  }

  /** The body is running and within its time to live. */
  predicate Inside(s: Sys, body: Session) {
    body.leftAt.None? && s.clock < Deadline(body)
  }

  /** A body that has not outrun its time to live still owns its key. */
  predicate Owned(s: Sys) {
    forall i | 0 <= i < |s.sessions| ::
      var body := s.sessions[i];
      && body.enteredAt <= s.clock
      && (Inside(s, body) ==> body.key in s.store && s.store[body.key] == Entry(i, Deadline(body)))
  }

  /** j entered while i was still inside. */
  predicate Overlap(i: Session, j: Session) {
    i.key == j.key && (i.leftAt.None? || i.leftAt.value > j.enteredAt)
  }

  /** Of two overlapping bodies on one key, the earlier had run past its time to live when the later entered. */
  predicate OnlyLate(s: Sys) {
    forall i, j | 0 <= i < j < |s.sessions| && Overlap(s.sessions[i], s.sessions[j]) ::
      s.sessions[j].enteredAt >= Deadline(s.sessions[i])
  }

  predicate LeftInPast(s: Sys) {
    forall i | 0 <= i < |s.sessions| :: s.sessions[i].leftAt.Some? ==> s.sessions[i].leftAt.value <= s.clock
  }

  predicate LockInv(s: Sys) {
    Owned(s) && OnlyLate(s) && LeftInPast(s)
  }

  lemma {:induction false} EnterKeepsInv(s: Sys, step: Step)
    requires LockInv(s) && step.Enter? && Enabled(s, step)
    ensures LockInv(Next(s, step))
  {
    var s' := Next(s, step);
    var n := |s.sessions|;
    if |s'.sessions| > n {
      forall i | 0 <= i < n && Overlap(s'.sessions[i], s'.sessions[n])
        ensures s'.sessions[n].enteredAt >= Deadline(s'.sessions[i])
      {
        assert s'.sessions[i] == s.sessions[i];
      }
      forall i | 0 <= i < n
        ensures s'.sessions[i] == s.sessions[i]
      {
      }
    }
  }

  lemma {:induction false} LeaveKeepsInv(s: Sys, step: Step)
    requires LockInv(s) && step.Leave? && Enabled(s, step)
    ensures LockInv(Next(s, step))
  {
    var s' := Next(s, step);
    forall i, j | 0 <= i < j < |s'.sessions| && Overlap(s'.sessions[i], s'.sessions[j])
      ensures s'.sessions[j].enteredAt >= Deadline(s'.sessions[i])
    {
      assert Overlap(s.sessions[i], s.sessions[j]);
    }
  }

  /** A body that leaves within its time to live frees its key: the next call gets in, and no other key is touched. */
  lemma {:induction false} LeavingFrees(s: Sys, i: nat, at: Time, ttl: pos, later: Time)
    requires LockInv(s) && Enabled(s, Leave(i, at)) && at < Deadline(s.sessions[i]) && at <= later
    ensures var key, left := s.sessions[i].key, Next(s, Leave(i, at));
            var entered := Next(left, Enter(key, ttl, later));
            && left.sessions == s.sessions[i := s.sessions[i].(leftAt := Some(at))]
            && entered.sessions == left.sessions + [Session(key, later, ttl, None)]
            && key in entered.store && entered.store[key] == Entry(|s.sessions|, later + ttl)
            && forall k | k != key :: (k in entered.store <==> k in s.store) &&
                                      (k in s.store ==> entered.store[k] == s.store[k])
  {
    assert Inside(s, s.sessions[i]);
  }

  predicate ValidRun(steps: seq<Step>)
    decreases |steps|, 0
  {
    steps == [] || (ValidRun(steps[..|steps| - 1]) && Enabled(Run(steps[..|steps| - 1]), steps[|steps| - 1]))
  }

  function Run(steps: seq<Step>): Sys
    requires ValidRun(steps)
    decreases |steps|, 1
  {
    if steps == [] then Sys(map[], [], 0) else Next(Run(steps[..|steps| - 1]), steps[|steps| - 1])
  }

  lemma {:induction false} RunKeepsInv(steps: seq<Step>)
    requires ValidRun(steps)
    ensures LockInv(Run(steps))
    decreases |steps|
  {
    if steps != [] {
      var before, step := steps[..|steps| - 1], steps[|steps| - 1];
      RunKeepsInv(before);
      if step.Enter? { EnterKeepsInv(Run(before), step); } else { LeaveKeepsInv(Run(before), step); }
    }
  }

  /** Whatever comes next on the clock, a call or the end of a running body, a run can go on with it. */
  lemma {:induction false} RunGoesOn(steps: seq<Step>, step: Step)
    requires ValidRun(steps) && step.at >= Run(steps).clock
    requires step.Leave? ==>
               step.session < |Run(steps).sessions| && Run(steps).sessions[step.session].leftAt == None
    ensures Run([]) == Sys(map[], [], 0)
    ensures ValidRun(steps + [step]) && Run(steps + [step]) == Next(Run(steps), step)
  {
    assert (steps + [step])[..|steps|] == steps;
  }

  /**
   * In every run: if a body was still running when another on its key entered, it had run past its time to live; and
   * at most one body per key is both unfinished and within its time to live.
   */
  lemma {:induction false} MutualExclusion(steps: seq<Step>)
    requires ValidRun(steps)
    ensures var s := Run(steps);
            forall i, j | 0 <= i < j < |s.sessions| && s.sessions[i].key == s.sessions[j].key ::
              var first, second := s.sessions[i], s.sessions[j];
              && (first.leftAt == None || second.enteredAt < first.leftAt.value ==>
                    second.enteredAt >= first.enteredAt + first.ttl)
              && (first.leftAt == None && second.leftAt == None ==>
                    s.clock >= first.enteredAt + first.ttl || s.clock >= second.enteredAt + second.ttl)
  {
    RunKeepsInv(steps);
    var s := Run(steps);
    forall i, j | 0 <= i < j < |s.sessions| && s.sessions[i].key == s.sessions[j].key
      ensures Overlap(s.sessions[i], s.sessions[j]) ==>
                s.sessions[j].enteredAt >= s.sessions[i].enteredAt + s.sessions[i].ttl
      ensures !(Inside(s, s.sessions[i]) && Inside(s, s.sessions[j]))
    {
    }
  }
}
