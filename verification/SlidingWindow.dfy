/** The sorted-set sliding-window limiter, for one key with a fixed limit and window. */
module SlidingWindow {
  import opened Common

  type Time = int

  /**
   * The Redis key: the scores of its members, and the time from which the key no longer exists. A missing
   * key is an empty set; members are unique request ids, so equal scores are kept apart.
   */
  datatype Store = Store(scores: seq<Time>, expiresAt: Time)

  datatype Verdict = Verdict(allowed: bool, remaining: nat, resetAt: Time)

  const EMPTY := Store([], 0)

  /** The scores above a cutoff, in order. */
  function Above(scores: seq<Time>, cutoff: Time): seq<Time> {
    if scores == [] then []
    else
      var n := |scores| - 1;
      Above(scores[..n], cutoff) + if scores[n] > cutoff then [scores[n]] else []
  }

  function Live(store: Store, now: Time): seq<Time> {
    if now >= store.expiresAt then [] else store.scores
  }

  /** Of each score above the cutoff as many as before, and no other. */
  lemma {:induction false} AboveCounts(scores: seq<Time>, cutoff: Time, t: Time)
    ensures multiset(Above(scores, cutoff))[t] == if t > cutoff then multiset(scores)[t] else 0
    decreases |scores|
  {
    if scores != [] {
      var n := |scores| - 1;
      AboveCounts(scores[..n], cutoff, t);
      assert scores == scores[..n] + [scores[n]];
    }
  }

  lemma {:induction false} AboveKeeps(scores: seq<Time>, cutoff: Time)
    ensures forall t :: multiset(Above(scores, cutoff))[t] == if t > cutoff then multiset(scores)[t] else 0
  {
    forall t { AboveCounts(scores, cutoff, t); }
  }

  /** Prune everything at or below now - window, add this request, count, renew the expiry. */
  function CheckNext(store: Store, window: Time, now: Time): Store {
    Store(Above(Live(store, now), now - window) + [now], now + window)
  }

  /** A check keeps each live score above the cutoff, and adds its own. */
  lemma {:induction false} CheckCounts(store: Store, window: Time, now: Time, t: Time)
    ensures multiset(CheckNext(store, window, now).scores)[t] ==
              (if now < store.expiresAt && t > now - window then multiset(store.scores)[t] else 0) +
              (if t == now then 1 else 0)
  {
    AboveCounts(Live(store, now), now - window, t);
  }

  lemma {:induction false} CheckKeeps(store: Store, window: Time, now: Time)
    ensures forall t :: multiset(CheckNext(store, window, now).scores)[t] ==
              (if now < store.expiresAt && t > now - window then multiset(store.scores)[t] else 0) +
              (if t == now then 1 else 0)
  {
    forall t { CheckCounts(store, window, now, t); }
  }

  function Answer(count: nat, limit: nat, window: Time, now: Time): Verdict {
    Verdict(count <= limit, if count <= limit then limit - count else 0, now + window)
  }

  class RateLimiter {
    const limit: nat
    const window: Time
    var store: Store

    constructor (limit: nat, windowSeconds: nat)
      requires windowSeconds > 0
      ensures this.limit == limit && window == windowSeconds * 1000 && store == EMPTY
    {
      this.limit, window, store := limit, windowSeconds * 1000, EMPTY;
    }

    /** zremrangebyscore: removes in place what has left the window. */
    method Prune(cutoff: Time)
      modifies this
      ensures store == Store(Above(old(store).scores, cutoff), old(store).expiresAt)
      ensures forall t :: multiset(store.scores)[t] == if t > cutoff then multiset(old(store.scores))[t] else 0
    {
      var kept := [];
      var i := 0;
      while i < |store.scores|
        invariant i <= |store.scores| && store == old(store)
        invariant kept == Above(store.scores[..i], cutoff)
      {
        assert store.scores[..i + 1][..i] == store.scores[..i];
        if store.scores[i] > cutoff {
          kept := kept + [store.scores[i]];
        }
        i := i + 1;
      }
      assert store.scores[..i] == store.scores;
      store := Store(kept, store.expiresAt);
      AboveKeeps(old(store.scores), cutoff);
    }

    method Check(now: Time) returns (v: Verdict)
      modifies this
      ensures store == CheckNext(old(store), window, now)
      ensures v == Answer(|store.scores|, limit, window, now)
      ensures store.expiresAt == now + window
      ensures forall t :: multiset(store.scores)[t] ==
                (if now < old(store.expiresAt) && t > now - window then multiset(old(store.scores))[t] else 0) +
                (if t == now then 1 else 0)
      ensures v.allowed <==> |store.scores| <= limit
      ensures v.remaining == (if |store.scores| <= limit then limit - |store.scores| else 0)
      ensures v.resetAt == now + window
    {
      ghost var live := Live(store, now);
      if now >= store.expiresAt {
        store := Store([], store.expiresAt); // the key is gone
      }
      assert store.scores == live;
      Prune(now - window);
      store := Store(store.scores + [now], now + window);
      v := Answer(|store.scores|, limit, window, now);
      CheckKeeps(old(store), window, now);
    }

    method Reset()
      modifies this
      ensures store == EMPTY
    {
      store := EMPTY;
    }
  }

  // ---- Specification: remember every call since the last reset ----

  /** How many of the calls lie in (now - window, now]. */
  function InWindow(calls: seq<Time>, window: Time, now: Time): nat {
    if calls == [] then 0
    else
      var n := |calls| - 1;
      InWindow(calls[..n], window, now) + if now - window < calls[n] <= now then 1 else 0
  }

  lemma {:induction false} InWindowIsCount(calls: seq<Time>, window: Time, now: Time, f: nat -> bool)
    requires forall i: nat | i < |calls| :: f(i) == (now - window < calls[i] <= now)
    ensures InWindow(calls, window, now) == CountIf(f, |calls|)
    decreases |calls|
  {
    if calls != [] { InWindowIsCount(calls[..|calls| - 1], window, now, f); }
  }

  lemma {:induction false} InWindowIsSize(calls: seq<Time>, window: Time, now: Time)
    ensures InWindow(calls, window, now) == |set i: nat | i < |calls| && now - window < calls[i] <= now|
  {
    var f := (i: nat) => i < |calls| && now - window < calls[i] <= now;
    InWindowIsCount(calls, window, now, f);
    CountIfIsSize(f, |calls|);
    assert (set i: nat | i < |calls| && f(i)) == set i: nat | i < |calls| && now - window < calls[i] <= now;
  }

  /** The clock never runs backwards. */
  predicate Ordered(calls: seq<Time>) {
    |calls| <= 1 || (Ordered(calls[..|calls| - 1]) && calls[|calls| - 2] <= calls[|calls| - 1])
  }

  lemma {:induction false} OrderedIff(calls: seq<Time>)
    ensures Ordered(calls) <==> forall i, j | 0 <= i < j < |calls| :: calls[i] <= calls[j]
    decreases |calls|
  {
    if |calls| > 1 {
      var n := |calls| - 1;
      OrderedIff(calls[..n]);
      if Ordered(calls) {
        forall i, j | 0 <= i < j < |calls| ensures calls[i] <= calls[j] { LastIsLatest(calls, i); }
      }
    }
  }

  lemma {:induction false} LastIsLatest(calls: seq<Time>, i: nat)
    requires Ordered(calls) && i < |calls|
    ensures calls[i] <= calls[|calls| - 1]
    decreases |calls|
  {
    if i < |calls| - 1 {
      LastIsLatest(calls[..|calls| - 1], i);
    }
  }

  predicate NotAfter(calls: seq<Time>, t: Time) {
    forall i | 0 <= i < |calls| :: calls[i] <= t
  }

  lemma {:induction false} LastIsMaximal(calls: seq<Time>)
    requires Ordered(calls) && calls != []
    ensures NotAfter(calls, calls[|calls| - 1])
  {
    forall i: nat | i < |calls| ensures calls[i] <= calls[|calls| - 1] { LastIsLatest(calls, i); }
  }

  lemma {:induction false} OrderedPrefix(calls: seq<Time>, k: nat)
    requires Ordered(calls) && k <= |calls|
    ensures Ordered(calls[..k])
    decreases |calls|
  {
    if k < |calls| {
      assert calls[..|calls| - 1][..k] == calls[..k];
      if |calls| > 1 { OrderedPrefix(calls[..|calls| - 1], k); }
    } else {
      assert calls[..k] == calls;
    }
  }

  /** The store after a sequence of calls to a fresh limiter. */
  function StoreAfter(calls: seq<Time>, window: Time): Store {
    if calls == [] then EMPTY
    else CheckNext(StoreAfter(calls[..|calls| - 1], window), window, calls[|calls| - 1])
  }

  lemma {:induction false} AboveTwice(scores: seq<Time>, low: Time, high: Time)
    requires low <= high
    ensures Above(Above(scores, low), high) == Above(scores, high)
    decreases |scores|
  {
    if scores != [] {
      var n := |scores| - 1;
      AboveTwice(scores[..n], low, high);
      if scores[n] > low {
        assert (Above(scores[..n], low) + [scores[n]])[..|Above(scores[..n], low)|] == Above(scores[..n], low);
      } else {
        assert Above(scores[..n], low) + [] == Above(scores[..n], low);
      }
    }
  }

  lemma {:induction false} AboveAll(scores: seq<Time>, cutoff: Time)
    requires forall i | 0 <= i < |scores| :: scores[i] <= cutoff
    ensures Above(scores, cutoff) == []
    decreases |scores|
  {
    if scores != [] { AboveAll(scores[..|scores| - 1], cutoff); }
  }

  /** Pruning what the key still holds at high is the same as pruning everything ever called. */
  lemma {:induction false} PruneIsExact(before: seq<Time>, low: Time, high: Time, gone: bool)
    requires low <= high
    requires gone ==> forall i | 0 <= i < |before| :: before[i] <= high
    ensures Above(if gone then [] else Above(before, low), high) == Above(before, high)
  {
    if gone {
      AboveAll(before, high);
    } else {
      AboveTwice(before, low, high);
    }
  }

  /** One check on a store that holds the window ending at the previous call, at time last. */
  lemma {:induction false} CheckKeepsWindow(before: seq<Time>, window: Time, last: Time, now: Time)
    requires last <= now && window > 0 && NotAfter(before, last)
    ensures CheckNext(Store(Above(before, last - window), last + window), window, now)
         == Store(Above(before, now - window) + [now], now + window)
  {
    var low, high := last - window, now - window;
    var gone := now >= last + window;
    assert Live(Store(Above(before, low), last + window), now) == if gone then [] else Above(before, low);
    PruneIsExact(before, low, high, gone);
  }

  lemma {:induction false} StoreSnoc(calls: seq<Time>, window: Time, now: Time)
    ensures StoreAfter(calls + [now], window) == CheckNext(StoreAfter(calls, window), window, now)
  {
    assert (calls + [now])[..|calls|] == calls;
  }

  /** The store holds exactly the calls of the window that ends at the last call. */
  predicate HoldsWindow(store: Store, calls: seq<Time>, window: Time)
    requires calls != []
  {
    var last := calls[|calls| - 1];
    store == Store(Above(calls, last - window), last + window)
  }

  lemma {:induction false} AboveLast(calls: seq<Time>, cutoff: Time)
    requires calls != [] && calls[|calls| - 1] > cutoff
    ensures Above(calls, cutoff) == Above(calls[..|calls| - 1], cutoff) + [calls[|calls| - 1]]
  {
  }

  lemma {:induction false} LastTwo(calls: seq<Time>)
    requires Ordered(calls) && |calls| >= 2
    ensures var before := calls[..|calls| - 1];
            before[|before| - 1] <= calls[|calls| - 1] && NotAfter(before, before[|before| - 1])
  {
    LastIsMaximal(calls[..|calls| - 1]);
  }

  lemma {:induction false} StoreAfterLast(calls: seq<Time>, window: Time)
    requires calls != []
    ensures StoreAfter(calls, window)
         == CheckNext(StoreAfter(calls[..|calls| - 1], window), window, calls[|calls| - 1])
  {
  }

  lemma {:induction false} StoreHoldsWindow(calls: seq<Time>, window: Time)
    requires Ordered(calls) && window > 0 && calls != []
    ensures HoldsWindow(StoreAfter(calls, window), calls, window)
    decreases |calls|
  {
    var before, now := calls[..|calls| - 1], calls[|calls| - 1];
    AboveLast(calls, now - window);
    StoreAfterLast(calls, window);
    if before != [] {
      StoreHoldsWindow(before, window);
      LastTwo(calls);
      CheckKeepsWindow(before, window, before[|before| - 1], now);
    }
  }

  lemma {:induction false} AboveIsInWindow(calls: seq<Time>, window: Time, now: Time)
    requires forall i | 0 <= i < |calls| :: calls[i] <= now
    ensures |Above(calls, now - window)| == InWindow(calls, window, now)
    decreases |calls|
  {
    if calls != [] { AboveIsInWindow(calls[..|calls| - 1], window, now); }
  }

  lemma {:induction false} CountAfter(calls: seq<Time>, window: Time)
    requires Ordered(calls) && window > 0 && calls != []
    ensures |StoreAfter(calls, window).scores| == InWindow(calls, window, calls[|calls| - 1])
  {
    StoreHoldsWindow(calls, window);
    CountAbove(calls, window, calls[|calls| - 1]);
  }

  lemma {:induction false} CountAbove(calls: seq<Time>, window: Time, now: Time)
    requires Ordered(calls) && calls != [] && calls[|calls| - 1] == now
    ensures |Above(calls, now - window)| == InWindow(calls, window, now)
  {
    forall i: nat | i < |calls| ensures calls[i] <= now { LastIsLatest(calls, i); }
    AboveIsInWindow(calls, window, now);
  }

  /**
   * Refinement: with a clock that never runs backwards, pruning and key expiry lose nothing that matters.
   * The count the limiter decides on is the number of all calls ever made in (now - window, now].
   */
  lemma {:induction false} CountIsExact(calls: seq<Time>, window: Time, now: Time)
    requires Ordered(calls + [now]) && window > 0
    ensures |CheckNext(StoreAfter(calls, window), window, now).scores| == InWindow(calls + [now], window, now)
  {
    StoreSnoc(calls, window, now);
    CountAfter(calls + [now], window);
  }

  /** What call k was told. */
  function VerdictAt(calls: seq<Time>, limit: nat, window: Time, k: nat): Verdict
    requires k < |calls|
  {
    Answer(|StoreAfter(calls[..k + 1], window).scores|, limit, window, calls[k])
  }

  predicate Allowed(calls: seq<Time>, limit: nat, window: Time, k: nat)
    requires k < |calls|
  {
    VerdictAt(calls, limit, window, k).allowed
  }

  /** How many of the first k calls were allowed and lie in (end - window, end]. */
  function AllowedInWindow(calls: seq<Time>, limit: nat, window: Time, end: Time, k: nat): nat
    requires k <= |calls|
  {
    if k == 0 then 0
    else
      AllowedInWindow(calls, limit, window, end, k - 1) +
      if Allowed(calls, limit, window, k - 1) && end - window < calls[k - 1] <= end then 1 else 0
  }

  /** Calls allowed in a window that reaches past now are calls of the window ending now. */
  lemma {:induction false} AllowedAreCalls(calls: seq<Time>, limit: nat, window: Time, end: Time, now: Time, k: nat)
    requires k <= |calls| && now <= end
    requires forall i | 0 <= i < k :: calls[i] <= now
    ensures AllowedInWindow(calls, limit, window, end, k) <= InWindow(calls[..k], window, now)
    decreases k
  {
    if k > 0 {
      AllowedAreCalls(calls, limit, window, end, now, k - 1);
      assert calls[..k][..k - 1] == calls[..k - 1];
    }
  }

  lemma {:induction false} CallsUpTo(calls: seq<Time>, k: nat)
    requires Ordered(calls) && 0 < k <= |calls|
    ensures forall i | 0 <= i < k :: calls[i] <= calls[k - 1]
  {
    OrderedPrefix(calls, k);
    forall i: nat | i < k ensures calls[i] <= calls[k - 1] { LastIsLatest(calls[..k], i); }
  }

  lemma {:induction false} LastAllowedBound(calls: seq<Time>, limit: nat, window: Time, end: Time, k: nat)
    requires 0 < k <= |calls| && Ordered(calls) && window > 0
    requires Allowed(calls, limit, window, k - 1) && calls[k - 1] <= end
    ensures AllowedInWindow(calls, limit, window, end, k) <= limit
  {
    CountAt(calls, window, k - 1);
    CallsUpTo(calls, k);
    AllowedAreCalls(calls, limit, window, end, calls[k - 1], k);
  }

  lemma {:induction false} AllowedAtMost(calls: seq<Time>, limit: nat, window: Time, end: Time, k: nat)
    requires k <= |calls| && Ordered(calls) && window > 0
    ensures AllowedInWindow(calls, limit, window, end, k) <= limit
    decreases k
  {
    if k > 0 {
      AllowedAtMost(calls, limit, window, end, k - 1);
      if Allowed(calls, limit, window, k - 1) && end - window < calls[k - 1] <= end {
        LastAllowedBound(calls, limit, window, end, k);
      }
    }
  }

  /** Whether call i was allowed in (end - window, end]. */
  predicate AllowedAt(calls: seq<Time>, limit: nat, window: Time, end: Time, i: nat) {
    i < |calls| && VerdictAt(calls, limit, window, i).allowed && end - window < calls[i] <= end
  }

  lemma {:induction false} AllowedIsCount(
    calls: seq<Time>, limit: nat, window: Time, end: Time, f: nat -> bool, k: nat)
    requires k <= |calls| && forall i: nat :: f(i) == AllowedAt(calls, limit, window, end, i)
    ensures AllowedInWindow(calls, limit, window, end, k) == CountIf(f, k)
    decreases k
  {
    if k > 0 { AllowedIsCount(calls, limit, window, end, f, k - 1); }
  }

  /** The bound: no window of the configured length holds more than limit allowed calls. */
  lemma {:induction false} WindowBound(calls: seq<Time>, limit: nat, window: Time, end: Time)
    requires Ordered(calls) && window > 0
    ensures |set i: nat |
              i < |calls| && VerdictAt(calls, limit, window, i).allowed && end - window < calls[i] <= end| <= limit
  {
    var f := (i: nat) => AllowedAt(calls, limit, window, end, i);
    AllowedAtMost(calls, limit, window, end, |calls|);
    AllowedIsCount(calls, limit, window, end, f, |calls|);
    CountIfIsSize(f, |calls|);
    assert (set i: nat | i < |calls| && f(i)) == set i: nat |
      i < |calls| && VerdictAt(calls, limit, window, i).allowed && end - window < calls[i] <= end;
  }

  lemma {:induction false} CountAt(calls: seq<Time>, window: Time, k: nat)
    requires k < |calls| && Ordered(calls) && window > 0
    ensures |StoreAfter(calls[..k + 1], window).scores| == InWindow(calls[..k + 1], window, calls[k])
  {
    assert calls[..k + 1] == calls[..k] + [calls[k]];
    OrderedPrefix(calls, k + 1);
    CountIsExact(calls[..k], window, calls[k]);
    StoreSnoc(calls[..k], window, calls[k]);
  }

  /**
   * A call is told it is allowed exactly when at most limit calls, itself and refused ones included, lie in its window,
   * how many more it would take to fill it, and when this window is over.
   */
  lemma {:induction false} AllowedIffUnderLimit(calls: seq<Time>, limit: nat, window: Time, k: nat)
    requires k < |calls| && Ordered(calls) && window > 0
    ensures var count := |set i: nat | i <= k && calls[k] - window < calls[i] <= calls[k]|;
            var v := VerdictAt(calls, limit, window, k);
            && (v.allowed <==> count <= limit)
            && v.remaining == (if count <= limit then limit - count else 0) && v.resetAt == calls[k] + window
  {
    var upTo := calls[..k + 1];
    CountAt(calls, window, k);
    InWindowIsSize(upTo, window, calls[k]);
    assert (set i: nat | i <= k && calls[k] - window < calls[i] <= calls[k])
        == (set i: nat | i < |upTo| && calls[k] - window < upTo[i] <= calls[k]);
  }
}
