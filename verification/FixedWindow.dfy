/**
 * The fixed-window counters of the login limiter and of the gateway: INCR, and EXPIRE on the first request of
 * a window. The two commands are separate, so the expiry of a window may be lost.
 */
module FixedWindow {
  import opened Common

  /** Milliseconds: EXPIRE takes whole seconds, but the key lives on the clock of Redis. */
  type Time = int

  /** A key exists only once it has been incremented. */
  datatype Counter = Absent | Counting(count: pos, expiresAt: Option<Time>)

  datatype Verdict = Verdict(allowed: bool, remaining: nat, retryAfter: int)

  const LOGIN_SECONDS: pos := 15 * 60
  const IP_LIMIT: pos := 30
  const EMAIL_LIMIT: pos := 10

  function Millis(seconds: nat): nat {
    1000 * seconds
  }

  function Live(counter: Counter, now: Time): Counter {
    if counter.Counting? && counter.expiresAt.Some? && now >= counter.expiresAt.value then Absent else counter
  }

  function IncrementNext(counter: Counter, window: nat, now: Time, expireLost: bool): Counter {
    match Live(counter, now)
    case Absent => Counting(1, if expireLost then None else Some(now + window))
    case Counting(count, expiresAt) => Counting(count + 1, expiresAt)
  }

  function Min(a: int, b: int): int {
    if a <= b then a else b
  }

  /** TTL as Redis answers it between the INCR and the EXPIRE: rounded to seconds, -1 for a key without expiry. */
  function Ttl(counter: Counter, now: Time): int {
    match Live(counter, now)
    case Absent => -1
    case Counting(_, expiresAt) => if expiresAt.Some? then (expiresAt.value - now + 500) / 1000 else -1
  }

  /** What a refused client is told to wait: half a second off at most, but a whole window in the last half second. */
  predicate ToldToWait(retryAfter: int, left: int, seconds: nat) {
    if left >= 500 then left - 500 < 1000 * retryAfter <= left + 500 else retryAfter == seconds
  }

  class FixedWindowCounter {
    const limit: nat
    const seconds: nat
    var counter: Counter

    constructor (limit: nat, seconds: nat)
      ensures this.limit == limit && this.seconds == seconds && counter == Absent
    {
      this.limit, this.seconds, counter := limit, seconds, Absent;
    }

    /** expireLost: the process stops between INCR and EXPIRE. */
    method Increment(now: Time, expireLost: bool) returns (v: Verdict)
      modifies this
      ensures counter == IncrementNext(old(counter), Millis(seconds), now, expireLost)
      ensures var was := old(counter);
              counter ==
                if was.Counting? && (was.expiresAt.None? || now < was.expiresAt.value)
                then Counting(was.count + 1, was.expiresAt)
                else Counting(1, if expireLost then None else Some(now + 1000 * seconds))
      ensures v.allowed <==> counter.count <= limit
      ensures v.remaining == if v.allowed then limit - counter.count else 0
      ensures v.allowed ==> v.retryAfter == 0
      ensures !v.allowed && seconds > 0 ==> v.retryAfter > 0
      ensures !v.allowed && counter.count > 1 && counter.expiresAt.Some? ==>
        ToldToWait(v.retryAfter, counter.expiresAt.value - now, seconds)
      ensures !v.allowed && (counter.count == 1 || counter.expiresAt.None?) ==> v.retryAfter == seconds
    {
      var ttl := Ttl(counter, now);
      match Live(counter, now) { // INCR keeps the expiry of an existing key
        case Absent => counter := Counting(1, None);
        case Counting(count, expiresAt) => counter := Counting(count + 1, expiresAt);
      }
      if counter.count == 1 && !expireLost {
        counter := Counting(1, Some(now + Millis(seconds)));
      }
      var allowed := counter.count <= limit;
      v := if allowed then Verdict(true, limit - counter.count, 0)
           else Verdict(false, 0, if ttl > 0 then ttl else seconds);
    }

    method Delete()
      modifies this
      ensures counter == Absent
    {
      counter := Absent;
    }
  }

  /**
   * Both counters are bumped by every attempt, also by a refused one; the attempt passes if both allow it.
   * Each key may lose its own expiry.
   */
  method CheckLoginRateLimit(
    ip: FixedWindowCounter, email: FixedWindowCounter, now: Time, ipExpireLost: bool, emailExpireLost: bool)
    returns (v: Verdict)
    requires ip != email && ip.limit == IP_LIMIT && email.limit == EMAIL_LIMIT
    requires ip.seconds == email.seconds == LOGIN_SECONDS
    modifies ip, email
    ensures ip.counter == IncrementNext(old(ip.counter), Millis(LOGIN_SECONDS), now, ipExpireLost)
    ensures email.counter == IncrementNext(old(email.counter), Millis(LOGIN_SECONDS), now, emailExpireLost)
    ensures v.allowed <==> ip.counter.count <= IP_LIMIT && email.counter.count <= EMAIL_LIMIT
    ensures v.allowed ==> v.retryAfter == 0
    ensures v.allowed ==>
      var left, right := 30 - ip.counter.count, 10 - email.counter.count;
      v.remaining == if left < right then left else right
    ensures !v.allowed ==> v.remaining == 0 && v.retryAfter > 0
    ensures !v.allowed ==>
      var refusing := if ip.counter.count > 30 then ip.counter else email.counter;
      if refusing.expiresAt.Some? then ToldToWait(v.retryAfter, refusing.expiresAt.value - now, 15 * 60)
      else v.retryAfter == 15 * 60
  {
    var ipResult := ip.Increment(now, ipExpireLost);
    var emailResult := email.Increment(now, emailExpireLost);
    if !ipResult.allowed {
      return ipResult;
    }
    if !emailResult.allowed {
      return emailResult;
    }
    v := Verdict(true, Min(ipResult.remaining, emailResult.remaining), 0);
  }

  // ---- Over any sequence of requests for a key that is never deleted early ----

  datatype Call = Call(at: Time, expireLost: bool)

  predicate Ordered(calls: seq<Call>) {
    forall i, j | 0 <= i < j < |calls| :: calls[i].at <= calls[j].at
  }

  /** The counter after the first k calls. */
  function CounterAfter(calls: seq<Call>, window: nat, k: nat): Counter
    requires k <= |calls|
  {
    if k == 0 then Absent
    else IncrementNext(CounterAfter(calls, window, k - 1), window, calls[k - 1].at, calls[k - 1].expireLost)
  }

  /** Call k opens a new lifetime of the key. */
  predicate Opens(calls: seq<Call>, window: nat, k: nat)
    requires k < |calls|
  {
    Live(CounterAfter(calls, window, k), calls[k].at).Absent?
  }

  predicate Admitted(calls: seq<Call>, limit: nat, window: nat, k: nat)
    requires k < |calls|
  {
    CounterAfter(calls, window, k + 1).count <= limit
  }

  /** The call that opened the lifetime call k falls into. */
  function Start(calls: seq<Call>, window: nat, k: nat): (s: nat)
    requires k < |calls|
    ensures s <= k
  {
    if k == 0 || Opens(calls, window, k) then k else Start(calls, window, k - 1)
  }

  /** Within a lifetime the counter is the number of calls since it opened; the expiry is the opening call's. */
  lemma {:induction false} LifetimeState(calls: seq<Call>, window: nat, k: nat)
    requires k < |calls|
    ensures var s := Start(calls, window, k);
            && Opens(calls, window, s)
            && CounterAfter(calls, window, k + 1) ==
                 Counting(k - s + 1, if calls[s].expireLost then None else Some(calls[s].at + window))
    decreases k
  {
    if k > 0 && !Opens(calls, window, k) {
      LifetimeState(calls, window, k - 1);
    }
  }

  /** Each lifetime admits its first limit calls and no other. */
  lemma {:induction false} AdmittedIffEarly(calls: seq<Call>, limit: nat, window: nat, k: nat)
    requires k < |calls|
    ensures Admitted(calls, limit, window, k) <==> k - Start(calls, window, k) < limit
  {
    LifetimeState(calls, window, k);
  }

  /** Lifetimes are disjoint: the next one opens only when the previous one is over, which a lost expiry prevents. */
  lemma {:induction false} LifetimesDisjoint(calls: seq<Call>, window: nat, k: nat)
    requires 0 < k < |calls| && Opens(calls, window, k)
    ensures var s := Start(calls, window, k - 1); !calls[s].expireLost && calls[s].at + window <= calls[k].at
  {
    LifetimeState(calls, window, k - 1);
  }

  /** How many of the calls lo..hi were admitted and lie in [from, from + window). */
  function AdmittedIn(calls: seq<Call>, limit: nat, window: nat, from: Time, lo: nat, hi: nat): nat
    requires lo <= hi <= |calls|
    decreases hi
  {
    if hi == lo then 0
    else
      AdmittedIn(calls, limit, window, from, lo, hi - 1) +
      if Admitted(calls, limit, window, hi - 1) && from <= calls[hi - 1].at < from + window then 1 else 0
  }

  lemma {:induction false} AdmittedSplit(
    calls: seq<Call>, limit: nat, window: nat, from: Time, lo: nat, mid: nat, hi: nat)
    requires lo <= mid <= hi <= |calls|
    ensures AdmittedIn(calls, limit, window, from, lo, hi)
         == AdmittedIn(calls, limit, window, from, lo, mid) + AdmittedIn(calls, limit, window, from, mid, hi)
    decreases hi
  {
    if mid < hi { AdmittedSplit(calls, limit, window, from, lo, mid, hi - 1); }
  }

  /** One lifetime admits at most limit calls, and one fewer of them lie in a stretch that misses its opening call. */
  lemma {:induction false} LifetimeBound(calls: seq<Call>, limit: nat, window: nat, from: Time, s: nat, hi: nat)
    requires s < hi <= |calls| && Start(calls, window, hi - 1) == s
    ensures AdmittedIn(calls, limit, window, from, s, hi) <= limit
    ensures AdmittedIn(calls, limit, window, from, s, hi) <= hi - s
    ensures calls[s].at < from ==> AdmittedIn(calls, limit, window, from, s, hi) <= hi - s - 1
    ensures calls[s].at < from && limit > 0 ==> AdmittedIn(calls, limit, window, from, s, hi) <= limit - 1
    decreases hi
  {
    AdmittedIffEarly(calls, limit, window, hi - 1);
    if s < hi - 1 {
      LifetimeBound(calls, limit, window, from, s, hi - 1);
    }
  }

  /** Calls before the window's first instant are not in it. */
  lemma {:induction false} NothingBefore(calls: seq<Call>, limit: nat, window: nat, from: Time, hi: nat)
    requires hi <= |calls| && forall i | 0 <= i < hi :: calls[i].at < from
    ensures AdmittedIn(calls, limit, window, from, 0, hi) == 0
    decreases hi
  {
    if hi > 0 { NothingBefore(calls, limit, window, from, hi - 1); }
  }

  /** Calls past the window's end are not in it. */
  lemma {:induction false} NothingAfter(calls: seq<Call>, limit: nat, window: nat, from: Time, lo: nat, hi: nat)
    requires lo <= hi <= |calls| && forall i | lo <= i < hi :: calls[i].at >= from + window
    ensures AdmittedIn(calls, limit, window, from, lo, hi) == 0
    decreases hi
  {
    if lo < hi { NothingAfter(calls, limit, window, from, lo, hi - 1); }
  }

  /**
   * The bound, lost expiries included: a stretch of the window's length may meet two lifetimes, but then it misses
   * the call that opened the first, so it holds at most twice the limit less one.
   */
  lemma {:induction false} TwiceTheLimit(calls: seq<Call>, limit: pos, window: nat, from: Time, hi: nat)
    requires hi <= |calls| && Ordered(calls)
    ensures AdmittedIn(calls, limit, window, from, 0, hi) <= 2 * limit - 1
    decreases hi
  {
    if hi > 0 {
      var s := Start(calls, window, hi - 1);
      AdmittedSplit(calls, limit, window, from, 0, s, hi);
      LifetimeBound(calls, limit, window, from, s, hi);
      LifetimeState(calls, window, hi - 1);
      if calls[s].at >= from + window {
        NothingAfter(calls, limit, window, from, s, hi);
        TwiceTheLimit(calls, limit, window, from, s);
      } else if s > 0 {
        LifetimesDisjoint(calls, window, s);
        var s' := Start(calls, window, s - 1);
        AdmittedSplit(calls, limit, window, from, 0, s', s);
        LifetimeBound(calls, limit, window, from, s', s);
        NothingBefore(calls, limit, window, from, s');
      }
    }
  }

  /** One call at time 0, limit - 1 at the last moment of its window, and limit when the window has just ended. */
  function Burst(limit: pos, window: nat): (calls: seq<Call>)
    ensures |calls| == 2 * limit
  {
    seq(2 * limit, i requires 0 <= i < 2 * limit =>
      Call(if i == 0 then 0 else if i < limit then window - 1 else window, false))
  }

  lemma {:induction false} BurstState(limit: pos, window: nat, k: nat)
    requires window >= 2 && k <= 2 * limit
    ensures CounterAfter(Burst(limit, window), window, k) ==
      if k == 0 then Absent
      else if k <= limit then Counting(k, Some(window))
      else Counting(k - limit, Some(2 * window))
    decreases k
  {
    if k > 0 { BurstState(limit, window, k - 1); }
  }

  lemma {:induction false} BurstAdmitted(limit: pos, window: nat, k: nat)
    requires window >= 2 && 0 < k <= 2 * limit
    ensures AdmittedIn(Burst(limit, window), limit, window, 1, 0, k) == k - 1
    decreases k
  {
    BurstState(limit, window, k);
    if k > 1 { BurstAdmitted(limit, window, k - 1); }
  }

  /** The bound is reached by every limit and every window, the shortest being a second. */
  lemma {:induction false} TwiceTheLimitIsReached(limit: pos, seconds: pos)
    ensures var window := Millis(seconds);
            && Ordered(Burst(limit, window))
            && AdmittedIn(Burst(limit, window), limit, window, 1, 0, 2 * limit) == 2 * limit - 1
  {
    BurstAdmitted(limit, Millis(seconds), 2 * limit);
  }

  // ---- When the counter keeps what a sliding window promises ----

  predicate InStretch(call: Call, window: nat, from: Time) {
    from <= call.at < from + window
  }

  /** Call s reopens the key inside the stretch; j is an admitted call of the lifetime before, not its opening one. */
  predicate Straddles(calls: seq<Call>, limit: nat, window: nat, from: Time, j: nat, s: nat)
    requires j < s < |calls|
  {
    && Opens(calls, window, s) && InStretch(calls[s], window, from)
    && Start(calls, window, j) == Start(calls, window, s - 1) < j
    && Admitted(calls, limit, window, j) && InStretch(calls[j], window, from)
  }

  lemma {:induction false} SomeAdmitted(calls: seq<Call>, limit: nat, window: nat, from: Time, lo: nat, hi: nat)
    returns (j: nat)
    requires lo <= hi <= |calls| && AdmittedIn(calls, limit, window, from, lo, hi) > 0
    ensures lo <= j < hi && Admitted(calls, limit, window, j) && InStretch(calls[j], window, from)
    decreases hi
  {
    if Admitted(calls, limit, window, hi - 1) && InStretch(calls[hi - 1], window, from) {
      j := hi - 1;
    } else {
      j := SomeAdmitted(calls, limit, window, from, lo, hi - 1);
    }
  }

  lemma {:induction false} StartBetween(calls: seq<Call>, window: nat, j: nat, k: nat)
    requires k < |calls| && Start(calls, window, k) <= j <= k
    ensures Start(calls, window, j) == Start(calls, window, k)
    decreases k
  {
    if j < k { StartBetween(calls, window, j, k - 1); }
  }

  lemma {:induction false} FindStraddle(calls: seq<Call>, limit: pos, window: nat, from: Time, hi: nat)
    returns (j: nat, s: nat)
    requires hi <= |calls| && Ordered(calls) && AdmittedIn(calls, limit, window, from, 0, hi) > limit
    ensures j < s < hi && Straddles(calls, limit, window, from, j, s)
    decreases hi
  {
    s := Start(calls, window, hi - 1);
    LifetimeState(calls, window, hi - 1);
    AdmittedSplit(calls, limit, window, from, 0, s, hi);
    if calls[s].at >= from + window {
      NothingAfter(calls, limit, window, from, s, hi);
      j, s := FindStraddle(calls, limit, window, from, s);
    } else {
      LifetimeBound(calls, limit, window, from, s, hi);
      j := FindBefore(calls, limit, window, from, s);
    }
  }

  /** Something was admitted in the stretch before call s, which opens a lifetime before the stretch ends. */
  lemma {:induction false} FindBefore(calls: seq<Call>, limit: pos, window: nat, from: Time, s: nat)
    returns (j: nat)
    requires s < |calls| && Ordered(calls) && Opens(calls, window, s) && calls[s].at < from + window
    requires AdmittedIn(calls, limit, window, from, 0, s) > 0
    ensures j < s && Straddles(calls, limit, window, from, j, s)
  {
    if calls[s].at < from { NothingBefore(calls, limit, window, from, s); }
    LifetimesDisjoint(calls, window, s);
    var opening := Start(calls, window, s - 1);
    AdmittedSplit(calls, limit, window, from, 0, opening, s);
    NothingBefore(calls, limit, window, from, opening);
    j := SomeAdmitted(calls, limit, window, from, opening, s);
    StartBetween(calls, window, j, s - 1);
  }

  /** In any history, a stretch of the window's length holds more than the limit only around a reopening of the key. */
  lemma {:induction false} ExcessStraddles(calls: seq<Call>, limit: pos, window: nat, from: Time, hi: nat)
    requires hi <= |calls| && Ordered(calls) && AdmittedIn(calls, limit, window, from, 0, hi) > limit
    ensures exists j: nat, s: nat | j < s < |calls| :: Straddles(calls, limit, window, from, j, s)
    ensures exists j: nat, s: nat | j < s < |calls| ::
              && Opens(calls, window, s) && from <= calls[j].at <= calls[s].at < from + window
              && Start(calls, window, j) < j && Start(calls, window, j) == Start(calls, window, s - 1)
              && Admitted(calls, limit, window, j)
  {
    var j, s := FindStraddle(calls, limit, window, from, hi);
  }

  /** In every history, no stretch of the window's length holds more than the limit. */
  ghost predicate Sliding(limit: pos, window: nat) {
    forall calls: seq<Call>, from: Time, hi: nat | hi <= |calls| && Ordered(calls) ::
      AdmittedIn(calls, limit, window, from, 0, hi) <= limit
  }

  /** The counter keeps the promise of a sliding window exactly for a limit of one. */
  lemma {:induction false} SlidingIff(limit: pos, seconds: pos)
    ensures Sliding(limit, Millis(seconds)) <==> limit == 1
  {
    var window := Millis(seconds);
    if limit == 1 {
      forall calls: seq<Call>, from: Time, hi: nat | hi <= |calls| && Ordered(calls)
        ensures AdmittedIn(calls, limit, window, from, 0, hi) <= limit
      {
        TwiceTheLimit(calls, limit, window, from, hi);
      }
    } else {
      TwiceTheLimitIsReached(limit, seconds);
    }
  }

  /** Neither login counter is a sliding window. */
  lemma {:induction false} LoginIsNotSliding()
    ensures !Sliding(IP_LIMIT, Millis(LOGIN_SECONDS)) && !Sliding(EMAIL_LIMIT, Millis(LOGIN_SECONDS))
  {
    SlidingIff(IP_LIMIT, LOGIN_SECONDS);
    SlidingIff(EMAIL_LIMIT, LOGIN_SECONDS);
  }

  /** When the expiry of a window is lost, the key never reopens: after limit calls every later one is refused. */
  lemma {:induction false} LostExpiryBlocksForever(calls: seq<Call>, limit: nat, window: nat, s: nat, k: nat)
    requires s <= k < |calls| && Opens(calls, window, s) && calls[s].expireLost
    ensures Start(calls, window, k) == s
    ensures Admitted(calls, limit, window, k) <==> k - s < limit
    decreases k
  {
    if s < k {
      LostExpiryBlocksForever(calls, limit, window, s, k - 1);
      LifetimeState(calls, window, k - 1);
    }
    AdmittedIffEarly(calls, limit, window, k);
  }
}
