/** Helpers shared by the models: optional values and sums over finite maps. */
module Common {

  datatype Option<+T> = None | Some(value: T)

  type pos = n: int | n >= 1 witness 1

  /** The sum of all values of a finite map. */
  ghost function Sum<K>(w: map<K, int>): int
    decreases |w|
  {
    if w == map[] then 0
    else
      var k :| k in w;
      w[k] + Sum(w - {k})
  }

  /** The sum does not depend on the order in which keys are taken. */
  lemma {:induction false} SumRemove<K>(w: map<K, int>, k: K)
    requires k in w
    ensures Sum(w) == w[k] + Sum(w - {k})
    decreases |w|
  {
    var first :| first in w && Sum(w) == w[first] + Sum(w - {first});
    if first != k {
      SumRemove(w - {first}, k);
      SumRemove(w - {k}, first);
      assert w - {first} - {k} == w - {k} - {first};
    }
  }

  lemma {:induction false} SumUpdate<K>(w: map<K, int>, k: K, v: int)
    ensures Sum(w[k := v]) == Sum(w) + v - (if k in w then w[k] else 0)
  {
    SumRemove(w[k := v], k);
    assert w[k := v] - {k} == w - {k};
    if k in w {
      SumRemove(w, k);
    } else {
      assert w - {k} == w;
    }
  }

  lemma {:induction false} SumNonNegative<K>(w: map<K, int>)
    requires forall k | k in w :: w[k] >= 0
    ensures Sum(w) >= 0
    decreases |w|
  {
    if w != map[] {
      var k :| k in w && Sum(w) == w[k] + Sum(w - {k});
      SumNonNegative(w - {k});
    }
  }

  /** Of non-negative values, the sum is at least each one. */
  lemma {:induction false} SumAtLeast<K>(w: map<K, int>, k: K)
    requires k in w && forall j | j in w :: w[j] >= 0
    ensures Sum(w) >= w[k]
  {
    SumRemove(w, k);
    SumNonNegative(w - {k});
  }

  /** Two maps with the same keys and values are equal. */
  lemma {:induction false} SameMap<K, V>(a: map<K, V>, b: map<K, V>)
    requires a.Keys == b.Keys && forall k | k in a.Keys :: a[k] == b[k]
    ensures a == b
  {
  }

  // ---- Counting ----

  lemma {:induction false} SubsetSize<K>(a: set<K>, b: set<K>)
    requires a <= b
    ensures |a| <= |b|
    decreases |a|
  {
    if a != {} {
      var x :| x in a;
      SubsetSize(a - {x}, b - {x});
    }
  }

  function CeilDiv(n: nat, d: nat): nat
    requires d > 0
  {
    (n + d - 1) / d
  }

  lemma {:induction false} CeilDivCovers(n: nat, d: nat)
    requires d > 0
    ensures CeilDiv(n, d) * d >= n
  {
    var m := n + d - 1;
    assert m == d * (m / d) + m % d;
    assert m % d <= d - 1;
  }

  lemma {:induction false} OneMore(n: nat, d: nat)
    ensures (n + 1) * d == n * d + d
  {
  }

  lemma {:induction false} MulMonotone(a: nat, b: nat, d: nat)
    requires a <= b
    ensures a * d <= b * d
  {
    assert b * d == a * d + (b - a) * d;
  }

  /** How many of the numbers below k satisfy f. */
  function CountIf(f: nat -> bool, k: nat): nat {
    if k == 0 then 0 else CountIf(f, k - 1) + if f(k - 1) then 1 else 0
  }

  lemma {:induction false} CountIfIsSize(f: nat -> bool, k: nat)
    ensures CountIf(f, k) == |set i: nat | i < k && f(i)|
    decreases k
  {
    if k > 0 {
      CountIfIsSize(f, k - 1);
      var before := set i: nat | i < k - 1 && f(i);
      var all := set i: nat | i < k && f(i);
      if f(k - 1) { assert all == before + {k - 1}; } else { assert all == before; }
    }
  }

  function Elements<T>(s: seq<T>): set<T> {
    set x | x in s
  }

  lemma {:induction false} ElementsSize<T>(s: seq<T>)
    requires forall i, j | 0 <= i < j < |s| :: s[i] != s[j]
    ensures |Elements(s)| == |s|
    decreases |s|
  {
    if s != [] {
      var n := |s| - 1;
      ElementsSize(s[..n]);
      assert s == s[..n] + [s[n]];
      assert Elements(s) == Elements(s[..n]) + {s[n]};
      assert s[n] !in s[..n];
    }
  }

  /** How many entries of a list satisfy f. */
  function HowMany<T>(s: seq<T>, f: T -> bool): nat {
    if s == [] then 0 else HowMany(s[..|s| - 1], f) + if f(s[|s| - 1]) then 1 else 0
  }

  lemma {:induction false} HowManyIsSize<T>(s: seq<T>, f: T -> bool)
    ensures HowMany(s, f) == |set i: nat | i < |s| && f(s[i])|
    decreases |s|
  {
    if s != [] {
      var n := |s| - 1;
      HowManyIsSize(s[..n], f);
      var before := set i: nat | i < n && f(s[..n][i]);
      var all := set i: nat | i < |s| && f(s[i]);
      forall i: nat ensures i in all <==> i in before || (i == n && f(s[n])) {
        assert i < n ==> s[..n][i] == s[i];
      }
      assert all == before + if f(s[n]) then {n} else {};
    }
  }

  lemma {:induction false} HowManySnoc<T>(s: seq<T>, x: T, f: T -> bool)
    ensures HowMany(s + [x], f) == HowMany(s, f) + if f(x) then 1 else 0
  {
    assert (s + [x])[..|s|] == s;
  }
}
