/** Generic facts about sequences and maps used by the collection code:
    sums, extrema, first-match search, removal, and tallies (the
    `map.put(k, map.getOrDefault(k, 0) + 1)` idiom). */
module Seqs {
  import opened Wrappers

  // ---------------------------------------------------------------------------
  // Sums

  /** Sum of integers, accumulated left to right. */
  function SumInt(s: seq<int>): int
  {
    if s == [] then 0 else SumInt(s[..|s| - 1]) + s[|s| - 1]
  }

  /** Two sequences that differ by one at position `x` alone have sums that differ by
      one when `x` is a position, and equal sums otherwise. */
  lemma {:induction false} SumAddOne(a: seq<int>, b: seq<int>, x: int)
    requires |a| == |b|
    requires forall v :: 0 <= v < |a| ==> a[v] == b[v] + (if x == v then 1 else 0)
    ensures SumInt(a) == SumInt(b) + (if 0 <= x < |a| then 1 else 0)
  {
    if a != [] {
      var k := |a| - 1;
      SumAddOne(a[..k], b[..k], x);
    }
  }

  lemma {:induction false} SumIntAppend(a: seq<int>, b: seq<int>)
    ensures SumInt(a + b) == SumInt(a) + SumInt(b)
    decreases |b|
  {
    if b == [] {
      assert a + b == a;
    } else {
      assert (a + b)[..|a + b| - 1] == a + b[..|b| - 1];
      SumIntAppend(a, b[..|b| - 1]);
    }
  }

  /** Sum of reals, accumulated left to right. */
  function SumReal(s: seq<real>): real
  {
    if s == [] then 0.0 else SumReal(s[..|s| - 1]) + s[|s| - 1]
  }

  lemma {:induction false} SumRealAppend(a: seq<real>, b: seq<real>)
    ensures SumReal(a + b) == SumReal(a) + SumReal(b)
    decreases |b|
  {
    if b == [] {
      assert a + b == a;
    } else {
      assert (a + b)[..|a + b| - 1] == a + b[..|b| - 1];
      SumRealAppend(a, b[..|b| - 1]);
    }
  }

  /** Every element of `s` lies in the closed interval [lo, hi]. */
  predicate AllIn(s: seq<int>, lo: int, hi: int)
  {
    forall i :: 0 <= i < |s| ==> lo <= s[i] <= hi
  }

  lemma {:induction false} SumIntBounds(s: seq<int>, lo: int, hi: int)
    requires AllIn(s, lo, hi)
    ensures |s| * lo <= SumInt(s) <= |s| * hi
    decreases |s|
  {
    if s != [] {
      var init := s[..|s| - 1];
      var x := s[|s| - 1];
      var n := |init|;
      SumIntBounds(init, lo, hi);
      assert lo <= x <= hi;
      assert SumInt(s) == SumInt(init) + x;
      assert |s| * lo == n * lo + lo && |s| * hi == n * hi + hi;
    }
  }

  /** Arithmetic mean of integers, 0 when there are none. */
  function MeanInt(s: seq<int>): real
  {
    if |s| == 0 then 0.0 else SumInt(s) as real / |s| as real
  }

  /** A quotient whose numerator lies between n*lo and n*hi lies in [lo, hi]. */
  lemma {:induction false} QuotientBounds(sum: real, n: real, lo: real, hi: real)
    requires n > 0.0 && n * lo <= sum <= n * hi
    ensures lo <= sum / n <= hi
  {
    var q := sum / n;
    assert sum == q * n;
  }

  lemma {:induction false} MeanIntBounds(s: seq<int>, lo: int, hi: int)
    requires |s| > 0 && AllIn(s, lo, hi)
    ensures lo as real <= MeanInt(s) <= hi as real
  {
    SumIntBounds(s, lo, hi);
    QuotientBounds(SumInt(s) as real, |s| as real, lo as real, hi as real);
  }

  // ---------------------------------------------------------------------------
  // Extrema

  /** Smallest element, as a left-to-right scan with `if (x < min) min = x` finds it. */
  function MinInt(s: seq<int>): (m: int)
    requires |s| > 0
    ensures m in s && forall i :: 0 <= i < |s| ==> m <= s[i]
  {
    if |s| == 1 then s[0]
    else
      var m := MinInt(s[..|s| - 1]);
      assert forall i :: 0 <= i < |s| - 1 ==> s[..|s| - 1][i] == s[i];
      if s[|s| - 1] < m then s[|s| - 1] else m
  }

  /** Largest element, as a left-to-right scan with `if (x > max) max = x` finds it. */
  function MaxInt(s: seq<int>): (m: int)
    requires |s| > 0
    ensures m in s && forall i :: 0 <= i < |s| ==> s[i] <= m
  {
    if |s| == 1 then s[0]
    else
      var m := MaxInt(s[..|s| - 1]);
      assert forall i :: 0 <= i < |s| - 1 ==> s[..|s| - 1][i] == s[i];
      if s[|s| - 1] > m then s[|s| - 1] else m
  }

  function MinReal(s: seq<real>): (m: real)
    requires |s| > 0
    ensures m in s && forall i :: 0 <= i < |s| ==> m <= s[i]
  {
    if |s| == 1 then s[0]
    else
      var m := MinReal(s[..|s| - 1]);
      assert forall i :: 0 <= i < |s| - 1 ==> s[..|s| - 1][i] == s[i];
      if s[|s| - 1] < m then s[|s| - 1] else m
  }

  /** Extending a prefix by one element compares that element with the prefix's minimum. */
  lemma {:induction false} MinRealStep(s: seq<real>, i: nat)
    requires 1 <= i < |s|
    ensures MinReal(s[..i + 1]) == if s[i] < MinReal(s[..i]) then s[i] else MinReal(s[..i])
  {
    assert s[..i + 1][..i] == s[..i];
  }

  /** Extending a prefix by one element compares that element with the prefix's maximum. */
  lemma {:induction false} MaxRealStep(s: seq<real>, i: nat)
    requires 1 <= i < |s|
    ensures MaxReal(s[..i + 1]) == if s[i] > MaxReal(s[..i]) then s[i] else MaxReal(s[..i])
  {
    assert s[..i + 1][..i] == s[..i];
  }

  function MaxReal(s: seq<real>): (m: real)
    requires |s| > 0
    ensures m in s && forall i :: 0 <= i < |s| ==> s[i] <= m
  {
    if |s| == 1 then s[0]
    else
      var m := MaxReal(s[..|s| - 1]);
      assert forall i :: 0 <= i < |s| - 1 ==> s[..|s| - 1][i] == s[i];
      if s[|s| - 1] > m then s[|s| - 1] else m
  }

  /** Arithmetic mean of a non-empty sequence of reals. */
  function MeanReal(s: seq<real>): real
    requires |s| > 0
  {
    SumReal(s) / |s| as real
  }

  lemma {:induction false} SumRealBounds(s: seq<real>, lo: real, hi: real)
    requires forall i :: 0 <= i < |s| ==> lo <= s[i] <= hi
    ensures |s| as real * lo <= SumReal(s) <= |s| as real * hi
    decreases |s|
  {
    if s != [] {
      SumRealBounds(s[..|s| - 1], lo, hi);
    }
  }

  lemma {:induction false} MeanRealBounds(s: seq<real>, lo: real, hi: real)
    requires |s| > 0 && forall i :: 0 <= i < |s| ==> lo <= s[i] <= hi
    ensures lo <= MeanReal(s) <= hi
  {
    SumRealBounds(s, lo, hi);
    QuotientBounds(SumReal(s), |s| as real, lo, hi);
  }

  /** The mean lies between the least and the greatest element. */
  lemma {:induction false} MeanBetweenExtrema(s: seq<real>)
    requires |s| > 0
    ensures MinReal(s) <= MeanReal(s) <= MaxReal(s)
  {
    MeanRealBounds(s, MinReal(s), MaxReal(s));
  }

  /** `k` is the first index holding the greatest element. */
  predicate IsFirstMax(s: seq<real>, k: int)
  {
    0 <= k < |s| &&
    (forall j :: 0 <= j < |s| ==> s[j] <= s[k]) &&
    (forall j :: 0 <= j < k ==> s[j] < s[k])
  }

  /** Left-to-right scan that moves only on a strictly greater element. */
  function FirstMax(s: seq<real>): (k: nat)
    requires |s| > 0
    ensures IsFirstMax(s, k)
  {
    if |s| == 1 then 0
    else
      var init := s[..|s| - 1];
      var k := FirstMax(init);
      assert forall j :: 0 <= j < |init| ==> init[j] == s[j];
      if s[|s| - 1] > s[k] then |s| - 1 else k
  }

  /** One more step of the scan behind `FirstMax`. */
  lemma {:induction false} FirstMaxStep(s: seq<real>, i: nat)
    requires 0 < i < |s|
    ensures FirstMax(s[..i + 1]) == if s[i] > s[FirstMax(s[..i])] then i else FirstMax(s[..i])
  {
    assert s[..i + 1][..i] == s[..i];
  }

  // ---------------------------------------------------------------------------
  // First-match search and removal

  /** Extending a prefix by one element, after a fixed head (stated once, for any
      element type, so that element equality never has to be unfolded). */
  lemma {:induction false} TakeSnoc<T>(head: seq<T>, s: seq<T>, i: nat)
    requires i < |s|
    ensures head + s[..i + 1] == head + s[..i] + [s[i]]
  {
    assert s[..i + 1] == s[..i] + [s[i]];
  }

  /** Index of the first occurrence of `x` in `s`, if any. */
  function FirstIndex<T(==)>(s: seq<T>, x: T): (r: Option<nat>)
    ensures r.None? <==> x !in s
    ensures r.Some? ==> r.value < |s| && s[r.value] == x && x !in s[..r.value]
  {
    if s == [] then None
    else if s[0] == x then Some(0)
    else
      var r := FirstIndex(s[1..], x);
      assert s == [s[0]] + s[1..];
      if r.None? then None
      else
        assert s[..r.value + 1] == [s[0]] + s[1..][..r.value];
        Some(r.value + 1)
  }

  /** `s` with the element at index `k` taken out. */
  function RemoveAt<T>(s: seq<T>, k: nat): (r: seq<T>)
    requires k < |s|
    ensures |r| == |s| - 1
    ensures forall i :: 0 <= i < k ==> r[i] == s[i]
    ensures forall i :: k <= i < |r| ==> r[i] == s[i + 1]
  {
    s[..k] + s[k + 1..]
  }

  /** `s` with its first occurrence of `x` taken out, as `ArrayList.remove(Object)` does;
      unchanged when `x` does not occur. */
  function RemoveFirst<T(==)>(s: seq<T>, x: T): seq<T>
  {
    match FirstIndex(s, x)
    case None => s
    case Some(k) => RemoveAt(s, k)
  }

  lemma {:induction false} RemoveFirstMultiset<T>(s: seq<T>, x: T)
    ensures multiset(RemoveFirst(s, x)) == multiset(s) - multiset{x}
  {
    match FirstIndex(s, x)
    case None =>
    case Some(k) =>
      assert s == s[..k] + [s[k]] + s[k + 1..];
  }

  /** Removing the first `x` and then searching for `x` finds nothing exactly when
      `x` occurred at most once. */
  lemma {:induction false} RemoveFirstThenSearch<T>(s: seq<T>, x: T)
    ensures FirstIndex(RemoveFirst(s, x), x).None? <==> multiset(s)[x] <= 1
  {
    RemoveFirstMultiset(s, x);
    assert x in RemoveFirst(s, x) <==> multiset(RemoveFirst(s, x))[x] > 0;
  }

  // ---------------------------------------------------------------------------
  // Tallies

  /** Occurrence counts of the elements of `s`, built left to right with
      `counts[k] := getOrDefault(k, 0) + 1`. */
  function Tally<K>(s: seq<K>): map<K, nat>
  {
    if s == [] then map[]
    else
      var m := Tally(s[..|s| - 1]);
      var k := s[|s| - 1];
      m[k := if k in m then m[k] + 1 else 1]
  }

  lemma {:induction false} TallyCounts<K>(s: seq<K>)
    ensures forall k :: k in Tally(s) <==> k in s
    ensures forall k :: k in Tally(s) ==> Tally(s)[k] == multiset(s)[k]
    decreases |s|
  {
    if s != [] {
      var init := s[..|s| - 1];
      TallyCounts(init);
      assert s == init + [s[|s| - 1]];
    }
  }

  /** A key of a non-empty map; the sum below is independent of which one. */
  ghost function PickKey<K>(m: map<K, nat>): K
    requires m != map[]
  {
    assert exists k :: k in m by {
      var k :| k in m.Keys;
    }
    var k :| k in m;
    k
  }

  /** Sum of the values of a finite map. */
  ghost function SumValues<K>(m: map<K, nat>): nat
    decreases |m|
  {
    if m == map[] then 0
    else
      var k := PickKey(m);
      assert |m - {k}| < |m| by {
        assert m.Keys == (m - {k}).Keys + {k};
      }
      m[k] + SumValues(m - {k})
  }

  lemma {:induction false} SumValuesRemove<K>(m: map<K, nat>, k: K)
    requires k in m
    ensures SumValues(m) == m[k] + SumValues(m - {k})
    decreases |m|
  {
    var j := PickKey(m);
    if j != k {
      assert (m - {j}).Keys + {j} == m.Keys;
      assert (m - {k}).Keys + {k} == m.Keys;
      SumValuesRemove(m - {j}, k);
      SumValuesRemove(m - {k}, j);
      assert m - {j} - {k} == m - {k} - {j};
    }
  }

  /** The counts of a tally add up to the number of elements tallied. */
  lemma {:induction false} TallyTotal<K>(s: seq<K>)
    ensures SumValues(Tally(s)) == |s|
    decreases |s|
  {
    if s != [] {
      var init := s[..|s| - 1];
      var m := Tally(init);
      var k := s[|s| - 1];
      var m' := Tally(s);
      TallyTotal(init);
      SumValuesRemove(m', k);
      assert m' - {k} == m - {k};
      if k in m {
        SumValuesRemove(m, k);
      } else {
        assert m - {k} == m;
      }
    }
  }
}
