/** The four `getOverallScore` rules of the Team subclasses
    (CybersecurityTeam, AITeam, WebDevTeam, MobileAppTeam). Each rule is a
    specification function on the score sequence and a method that runs the
    source's loop over the score array; overall scores are exact reals. */
module Scoring {
  import opened Seqs

  /** The concrete Team subclass; it decides the scoring rule for good. */
  datatype Kind = Cybersecurity | ArtificialIntelligence | WebDevelopment | MobileDevelopment

  /** The category string each subclass constructor hands to Team, whatever the caller wanted. */
  function CategoryName(k: Kind): (name: string)
    ensures name != [] && ',' !in name
  {
    match k
    case Cybersecurity => "Cybersecurity"
    case ArtificialIntelligence => "Artificial Intelligence"
    case WebDevelopment => "Web Development"
    case MobileDevelopment => "Mobile Development"
  }

  /** Each subclass has a category text of its own. */
  lemma {:induction false} CategoryNameInjective(k: Kind, l: Kind)
    ensures CategoryName(k) == CategoryName(l) <==> k == l
  {
    if k != l {
      assert CategoryName(k)[0] != CategoryName(l)[0];
    }
  }

  // ---------------------------------------------------------------------------
  // Ascending sort (the effect of java.util.Arrays.sort on int[])

  predicate SortedAsc(s: seq<int>)
  {
    forall i, j :: 0 <= i < j < |s| ==> s[i] <= s[j]
  }

  function InsertAsc(x: int, s: seq<int>): seq<int>
  {
    if s == [] || x <= s[0] then [x] + s else [s[0]] + InsertAsc(x, s[1..])
  }

  function SortAsc(s: seq<int>): seq<int>
  {
    if s == [] then [] else InsertAsc(s[0], SortAsc(s[1..]))
  }

  lemma {:induction false} InsertAscMultiset(x: int, s: seq<int>)
    ensures multiset(InsertAsc(x, s)) == multiset(s) + multiset{x}
    decreases |s|
  {
    if s != [] && x > s[0] {
      InsertAscMultiset(x, s[1..]);
      assert s == [s[0]] + s[1..];
    }
  }

  lemma {:induction false} InsertAscSorted(x: int, s: seq<int>)
    requires SortedAsc(s)
    ensures SortedAsc(InsertAsc(x, s))
    decreases |s|
  {
    if s != [] && x > s[0] {
      var t := s[1..];
      InsertAscSorted(x, t);
      InsertAscMultiset(x, t);
      var r := InsertAsc(x, t);
      forall k | 0 <= k < |r|
        ensures s[0] <= r[k]
      {
        assert r[k] in multiset(r);
        if r[k] != x {
          assert r[k] in multiset(t);
        }
      }
    }
  }

  /** The sorted copy is in ascending order and holds exactly the same scores. */
  lemma {:induction false} SortAscCorrect(s: seq<int>)
    ensures SortedAsc(SortAsc(s)) && multiset(SortAsc(s)) == multiset(s)
    decreases |s|
  {
    if s != [] {
      SortAscCorrect(s[1..]);
      InsertAscSorted(s[0], SortAsc(s[1..]));
      InsertAscMultiset(s[0], SortAsc(s[1..]));
      assert s == [s[0]] + s[1..];
    }
  }

  /** Two ascending sequences with the same elements are equal. */
  lemma {:induction false} SortedUnique(a: seq<int>, b: seq<int>)
    requires SortedAsc(a) && SortedAsc(b) && multiset(a) == multiset(b)
    ensures a == b
    decreases |a|
  {
    if a != [] {
      SortedHeads(a, b);
      TailMultiset(a);
      TailMultiset(b);
      SortedUnique(a[1..], b[1..]);
      assert a == [a[0]] + a[1..] && b == [b[0]] + b[1..];
    }
  }

  /** Two ascending arrangements of the same scores start with the same, least, score. */
  lemma {:induction false} SortedHeads(a: seq<int>, b: seq<int>)
    requires SortedAsc(a) && SortedAsc(b) && multiset(a) == multiset(b) && a != []
    ensures |b| == |a| && a[0] == b[0]
  {
    assert |multiset(a)| == |multiset(b)|;
    assert a[0] in multiset(b) && b[0] in multiset(a);
  }

  lemma {:induction false} TailMultiset(a: seq<int>)
    requires a != []
    ensures multiset(a[1..]) == multiset(a) - multiset{a[0]}
  {
    assert a == [a[0]] + a[1..];
  }

  /** In-place ascending insertion sort, standing for `Arrays.sort`. */
  method SortInPlace(a: array<int>)
    modifies a
    ensures SortedAsc(a[..]) && multiset(a[..]) == old(multiset(a[..]))
  {
    if a.Length == 0 {
      return;
    }
    var i := 1;
    while i < a.Length
      invariant 1 <= i <= a.Length
      invariant forall p, q :: 0 <= p < q < i ==> a[p] <= a[q]
      invariant multiset(a[..]) == old(multiset(a[..]))
    {
      InsertDown(a, i);
      i := i + 1;
    }
  }

  /** Moves `a[i]` down into the ascending prefix `a[..i]`. */
  method InsertDown(a: array<int>, i: nat)
    requires i < a.Length
    requires forall p, q :: 0 <= p < q < i ==> a[p] <= a[q]
    modifies a
    ensures forall p, q :: 0 <= p < q <= i ==> a[p] <= a[q]
    ensures multiset(a[..]) == old(multiset(a[..]))
  {
    var j := i;
    while j > 0 && a[j - 1] > a[j]
      invariant 0 <= j <= i
      invariant forall p, q :: 0 <= p < q <= i && p != j && q != j ==> a[p] <= a[q]
      invariant forall q :: j < q <= i ==> a[j] < a[q]
      invariant multiset(a[..]) == old(multiset(a[..]))
    {
      SwapDown(a, j);
      j := j - 1;
    }
  }

  /** Exchanges `a[j - 1]` and `a[j]`. */
  method SwapDown(a: array<int>, j: nat)
    requires 0 < j < a.Length
    modifies a
    ensures a[..] == old(a[..])[j - 1 := old(a[j])][j := old(a[j - 1])]
    ensures multiset(a[..]) == old(multiset(a[..]))
  {
    a[j - 1], a[j] := a[j], a[j - 1];
  }

  // ---------------------------------------------------------------------------
  // Cybersecurity: mean of the top min(4, n) scores

  /** `Math.min(4, n)`: how many of the largest scores count. */
  function TopCount(n: nat): nat
  {
    if n < 4 then n else 4
  }

  /** Mean of the `TopCount(|s|)` largest scores; undefined (NaN in the source) when empty. */
  function CyberScore(s: seq<int>): real
    requires |s| > 0
  {
    var sorted := SortAsc(s);
    SortAscCorrect(s);
    assert |sorted| == |s| by {
      assert |multiset(sorted)| == |multiset(s)|;
    }
    var k := TopCount(|s|);
    SumInt(sorted[|s| - k..]) as real / k as real
  }

  /** The scores averaged by `CyberScore` are the largest ones: the sorted copy splits
      into the `TopCount` scores that are summed and the rest, no summed score is
      below any dropped one, and together they are the team's scores. */
  lemma {:induction false} CyberAveragesTop(s: seq<int>)
    requires |s| > 0
    ensures var sorted := SortAsc(s);
            var k := TopCount(|s|);
            |sorted| == |s| &&
            multiset(sorted[..|s| - k]) + multiset(sorted[|s| - k..]) == multiset(s) &&
            (forall i, j :: 0 <= i < |s| - k <= j < |s| ==> sorted[i] <= sorted[j]) &&
            CyberScore(s) == SumInt(sorted[|s| - k..]) as real / k as real
  {
    var sorted := SortAsc(s);
    SortAscCorrect(s);
    assert |multiset(sorted)| == |multiset(s)|;
    var k := TopCount(|s|);
    assert sorted == sorted[..|s| - k] + sorted[|s| - k..];
  }

  /** The source's own sample row `3,4,3,4,4` scores (4+4+4+3)/4. */
  lemma {:induction false} CyberSample()
    ensures CyberScore([3, 4, 3, 4, 4]) == 3.75
  {
    var s := [3, 4, 3, 4, 4];
    assert SortAsc([4]) == [4];
    assert SortAsc([4, 4]) == [4, 4];
    assert SortAsc([3, 4, 4]) == [3, 4, 4];
    assert SortAsc([4, 3, 4, 4]) == [3, 4, 4, 4];
    assert SortAsc(s) == [3, 3, 4, 4, 4];
    assert SortAsc(s)[1..] == [3, 4, 4, 4];
    assert [3, 4, 4, 4][..3] == [3, 4, 4] && [3, 4, 4][..2] == [3, 4] && [3, 4][..1] == [3];
    assert SumInt([3]) == 3 by {
      assert [3][..0] == [];
    }
    assert SumInt([3, 4, 4, 4]) == 15;
  }

  lemma {:induction false} SumIntCons(x: int, s: seq<int>)
    ensures SumInt([x] + s) == x + SumInt(s)
  {
    SumIntAppend([x], s);
    assert [x][..0] == [];
  }

  /** The summing loop of the Cybersecurity rule: from the last index down to
      `a.Length - n`. */
  method SumOfLast(a: array<int>, n: nat) returns (sum: real)
    requires n <= a.Length
    ensures sum == SumInt(a[a.Length - n..]) as real
  {
    sum := 0.0;
    var i := a.Length - 1;
    while i >= a.Length - n
      invariant a.Length - n - 1 <= i <= a.Length - 1
      invariant sum == SumInt(a[i + 1..]) as real
    {
      assert a[i..] == [a[i]] + a[i + 1..];
      SumIntCons(a[i], a[i + 1..]);
      sum := sum + a[i] as real;
      i := i - 1;
    }
  }

  /** `CybersecurityTeam.getOverallScore`: sorts a clone of the scores (the team's own
      array is not in the frame, so it is left as it was) and averages the top entries
      from the end of the sorted clone. */
  method CyberScoreOf(scores: array<int>) returns (r: real)
    requires scores.Length > 0
    ensures r == CyberScore(scores[..])
  {
    var sorted := new int[scores.Length];
    forall i | 0 <= i < scores.Length {
      sorted[i] := scores[i];
    }
    assert sorted[..] == scores[..];
    SortInPlace(sorted);
    SortAscCorrect(scores[..]);
    SortedUnique(sorted[..], SortAsc(scores[..]));
    var n := if 4 < sorted.Length then 4 else sorted.Length;
    var sum := SumOfLast(sorted, n);
    r := sum / n as real;
  }

  // ---------------------------------------------------------------------------
  // Artificial Intelligence: weighted mean with weights 1, 1.5, 2, 1.5, 1

  const Weights: seq<real> := [1.0, 1.5, 2.0, 1.5, 1.0]

  /** Number of scores the weights reach: `i < scores.length && i < weights.length`. */
  function Weighted(n: nat): nat
  {
    if n < |Weights| then n else |Weights|
  }

  function WeightedSum(s: seq<int>, m: nat): real
    requires m <= |s| && m <= |Weights|
  {
    if m == 0 then 0.0 else WeightedSum(s, m - 1) + s[m - 1] as real * Weights[m - 1]
  }

  function TotalWeight(m: nat): real
    requires m <= |Weights|
  {
    if m == 0 then 0.0 else TotalWeight(m - 1) + Weights[m - 1]
  }

  /** Weighted mean over the first `Weighted(|s|)` scores; 0 when the total weight is 0. */
  function AiScore(s: seq<int>): real
  {
    var m := Weighted(|s|);
    var total := TotalWeight(m);
    if total > 0.0 then WeightedSum(s, m) / total else 0.0
  }

  lemma {:induction false} TotalWeightPositive(m: nat)
    requires m <= |Weights|
    ensures TotalWeight(m) >= m as real
  {
    if m > 0 {
      TotalWeightPositive(m - 1);
    }
  }

  lemma {:induction false} WeightedSumPrefix(s: seq<int>, t: seq<int>, m: nat)
    requires m <= |s| && m <= |t| && m <= |Weights|
    requires s[..m] == t[..m]
    ensures WeightedSum(s, m) == WeightedSum(t, m)
  {
    if m > 0 {
      assert s[m - 1] == s[..m][m - 1] == t[..m][m - 1] == t[m - 1];
      assert s[..m - 1] == s[..m][..m - 1];
      assert t[..m - 1] == t[..m][..m - 1];
      WeightedSumPrefix(s, t, m - 1);
    }
  }

  /** Scores past the fifth carry no weight: the AI score only looks at the first five. */
  lemma {:induction false} AiIgnoresTail(s: seq<int>)
    requires |s| > 5
    ensures AiScore(s) == AiScore(s[..5])
  {
    WeightedSumPrefix(s, s[..5], 5);
  }

  /** With no scores the AI score is 0, and with at least one the total weight is positive. */
  lemma {:induction false} AiEmptyIsZero(s: seq<int>)
    ensures |s| == 0 <==> TotalWeight(Weighted(|s|)) == 0.0
    ensures |s| == 0 ==> AiScore(s) == 0.0
  {
    TotalWeightPositive(Weighted(|s|));
  }

  /** The sample row `5,4,5,4,3`: (5 + 6 + 10 + 6 + 3) / 7. */
  lemma {:induction false} AiSample()
    ensures AiScore([5, 4, 5, 4, 3]) == 30.0 / 7.0
  {
    var s := [5, 4, 5, 4, 3];
    assert WeightedSum(s, 5) == 30.0;
    assert TotalWeight(5) == 7.0;
  }

  /** `AITeam.getOverallScore`. */
  method AiScoreOf(scores: array<int>) returns (r: real)
    ensures r == AiScore(scores[..])
  {
    var weights := Weights;
    var weightedSum := 0.0;
    var totalWeight := 0.0;
    var i := 0;
    while i < scores.Length && i < |weights|
      invariant 0 <= i <= scores.Length && i <= |weights|
      invariant weightedSum == WeightedSum(scores[..], i)
      invariant totalWeight == TotalWeight(i)
    {
      weightedSum := weightedSum + scores[i] as real * weights[i];
      totalWeight := totalWeight + weights[i];
      i := i + 1;
    }
    r := if totalWeight > 0.0 then weightedSum / totalWeight else 0.0;
  }

  // ---------------------------------------------------------------------------
  // Web Development: mean without one lowest and one highest score

  /** Plain mean for at most two scores (0 when empty); otherwise
      (sum - min - max) / (n - 2). */
  function WebScore(s: seq<int>): real
  {
    if |s| <= 2 then MeanInt(s)
    else (SumInt(s) - MinInt(s) - MaxInt(s)) as real / (|s| - 2) as real
  }

  /** Sum of a sequence split around position `k`. */
  lemma {:induction false} SumAround(s: seq<int>, k: nat)
    requires k < |s|
    ensures SumInt(s) == SumInt(s[..k]) + s[k] + SumInt(s[k + 1..])
  {
    var front, back := s[..k + 1], s[k + 1..];
    assert s == front + back;
    SumIntAppend(front, back);
    assert front == s[..k] + [s[k]];
    SumIntAppend(s[..k], [s[k]]);
  }

  lemma {:induction false} SumRemoveFirst(s: seq<int>, x: int)
    requires x in s
    ensures SumInt(RemoveFirst(s, x)) == SumInt(s) - x
  {
    var k := FirstIndex(s, x).value;
    SumAround(s, k);
    SumIntAppend(s[..k], s[k + 1..]);
  }

  /** What is left once one lowest and one highest score are taken out. */
  function Trimmed(s: seq<int>): seq<int>
    requires |s| > 2
  {
    RemoveFirst(RemoveFirst(s, MinInt(s)), MaxInt(s))
  }

  /** Taking out one lowest score leaves a highest one behind. */
  lemma {:induction false} MaxSurvivesMinRemoval(s: seq<int>)
    requires |s| > 2
    ensures MaxInt(s) in RemoveFirst(s, MinInt(s))
  {
    var lo, hi := MinInt(s), MaxInt(s);
    var r := RemoveFirst(s, lo);
    RemoveFirstMultiset(s, lo);
    if lo != hi {
      assert multiset(r)[hi] == multiset(s)[hi] > 0;
    } else {
      AllEqualExtremes(s, r);
    }
  }

  /** When the least and greatest scores coincide, every remaining score is that score. */
  lemma {:induction false} AllEqualExtremes(s: seq<int>, r: seq<int>)
    requires |s| > 2 && MinInt(s) == MaxInt(s)
    requires multiset(r) == multiset(s) - multiset{MinInt(s)}
    ensures MaxInt(s) in r
  {
    assert |multiset(r)| == |s| - 1;
    assert r[0] in multiset(r);
    assert r[0] in multiset(s);
    var k :| 0 <= k < |s| && s[k] == r[0];
    assert r[0] == MaxInt(s);
  }

  /** One lowest and one highest occurrence are taken out, nothing else. */
  lemma {:induction false} TrimmedMultiset(s: seq<int>)
    requires |s| > 2
    ensures |Trimmed(s)| == |s| - 2
    ensures multiset(Trimmed(s)) == multiset(s) - multiset{MinInt(s)} - multiset{MaxInt(s)}
  {
    var r := RemoveFirst(s, MinInt(s));
    MaxSurvivesMinRemoval(s);
    RemoveFirstMultiset(s, MinInt(s));
    RemoveFirstMultiset(r, MaxInt(s));
  }

  lemma {:induction false} TrimmedSum(s: seq<int>)
    requires |s| > 2
    ensures SumInt(Trimmed(s)) == SumInt(s) - MinInt(s) - MaxInt(s)
  {
    MaxSurvivesMinRemoval(s);
    SumRemoveFirst(s, MinInt(s));
    SumRemoveFirst(RemoveFirst(s, MinInt(s)), MaxInt(s));
  }

  /** For more than two scores the Web Development rule is the plain mean of the scores
      left after dropping one lowest and one highest occurrence. */
  lemma {:induction false} WebDropsOneMinOneMax(s: seq<int>)
    requires |s| > 2
    ensures |Trimmed(s)| == |s| - 2
    ensures multiset(Trimmed(s)) == multiset(s) - multiset{MinInt(s)} - multiset{MaxInt(s)}
    ensures WebScore(s) == MeanInt(Trimmed(s))
  {
    TrimmedMultiset(s);
    TrimmedMean(s);
  }

  lemma {:induction false} TrimmedMean(s: seq<int>)
    requires |s| > 2
    ensures WebScore(s) == MeanInt(Trimmed(s))
  {
    TrimmedSum(s);
    TrimmedLength(s);
    var total := SumInt(s) - MinInt(s) - MaxInt(s);
    MeanBySum(Trimmed(s), total, |s| - 2);
    assert WebScore(s) == total as real / (|s| - 2) as real;
  }

  lemma {:induction false} MeanBySum(t: seq<int>, total: int, k: int)
    requires |t| == k > 0 && SumInt(t) == total
    ensures MeanInt(t) == total as real / k as real
  {
  }

  lemma {:induction false} TrimmedLength(s: seq<int>)
    requires |s| > 2
    ensures |Trimmed(s)| == |s| - 2
  {
    MaxSurvivesMinRemoval(s);
  }

  /** The summing loop shared by the Web and Mobile rules, as a `double` accumulator. */
  method SumScores(scores: array<int>) returns (sum: real)
    ensures sum == SumInt(scores[..]) as real
  {
    sum := 0.0;
    var i := 0;
    while i < scores.Length
      invariant 0 <= i <= scores.Length
      invariant sum == SumInt(scores[..i]) as real
    {
      assert scores[..i + 1][..i] == scores[..i];
      sum := sum + scores[i] as real;
      i := i + 1;
    }
    assert scores[..i] == scores[..];
  }

  /** One pass for the sum, the lowest and the highest score, starting from the first. */
  method ScanScores(scores: array<int>) returns (min: int, max: int, sum: real)
    requires scores.Length > 0
    ensures min == MinInt(scores[..]) && max == MaxInt(scores[..])
    ensures sum == SumInt(scores[..]) as real
  {
    min := scores[0];
    max := scores[0];
    sum := 0.0;
    var i := 0;
    while i < scores.Length
      invariant 0 <= i <= scores.Length
      invariant sum == SumInt(scores[..i]) as real
      invariant min == MinInt(scores[..if i == 0 then 1 else i])
      invariant max == MaxInt(scores[..if i == 0 then 1 else i])
    {
      assert scores[..i + 1][..i] == scores[..i];
      sum := sum + scores[i] as real;
      if scores[i] < min {
        min := scores[i];
      }
      if scores[i] > max {
        max := scores[i];
      }
      i := i + 1;
    }
    assert scores[..i] == scores[..];
  }

  /** `WebDevTeam.getOverallScore`. */
  method WebScoreOf(scores: array<int>) returns (r: real)
    ensures r == WebScore(scores[..])
  {
    if scores.Length <= 2 {
      var sum := SumScores(scores);
      return if scores.Length > 0 then sum / scores.Length as real else 0.0;
    }
    var min, max, sum := ScanScores(scores);
    sum := sum - min as real - max as real;
    r := sum / (scores.Length - 2) as real;
  }

  // ---------------------------------------------------------------------------
  // Mobile Development: plain mean

  /** `MobileAppTeam.getOverallScore`: sum / n, and 0 when there are no scores. */
  method MobileScoreOf(scores: array<int>) returns (r: real)
    ensures r == MeanInt(scores[..])
  {
    if scores.Length == 0 {
      return 0.0;
    }
    var sum := SumScores(scores);
    r := sum / scores.Length as real;
  }

  // ---------------------------------------------------------------------------
  // The rule chosen by the subclass

  /** Scores a team of this kind can be scored on: Cybersecurity divides by zero on none. */
  predicate Scorable(k: Kind, s: seq<int>)
  {
    k != Cybersecurity || |s| > 0
  }

  /** `getOverallScore` as overridden by the subclass of kind `k`; the
      subclasses that may be scored on no scores at all give 0 then. */
  function Overall(k: Kind, s: seq<int>): (r: real)
    requires Scorable(k, s)
    ensures s == [] ==> r == 0.0
  {
    match k
    case Cybersecurity => CyberScore(s)
    case ArtificialIntelligence => AiScore(s)
    case WebDevelopment => WebScore(s)
    case MobileDevelopment => MeanInt(s)
  }

  lemma {:induction false} AllInSubset(s: seq<int>, t: seq<int>, lo: int, hi: int)
    requires AllIn(s, lo, hi) && multiset(t) <= multiset(s)
    ensures AllIn(t, lo, hi)
  {
    forall i | 0 <= i < |t|
      ensures lo <= t[i] <= hi
    {
      assert t[i] in multiset(t);
      assert t[i] in multiset(s);
    }
  }

  lemma {:induction false} WeightedSumBounds(s: seq<int>, m: nat, lo: int, hi: int)
    requires m <= |s| && m <= |Weights| && AllIn(s, lo, hi)
    ensures lo as real * TotalWeight(m) <= WeightedSum(s, m) <= hi as real * TotalWeight(m)
  {
    WeightedSumAbove(s, m, lo, hi);
    WeightedSumBelow(s, m, lo, hi);
  }

  /** The lower half of `WeightedSumBounds`. */
  lemma {:induction false} WeightedSumAbove(s: seq<int>, m: nat, lo: int, hi: int)
    requires m <= |s| && m <= |Weights| && AllIn(s, lo, hi)
    ensures lo as real * TotalWeight(m) <= WeightedSum(s, m)
  {
    if m > 0 {
      WeightedSumAbove(s, m - 1, lo, hi);
      assert lo <= s[m - 1];
      AboveStep(lo as real, s[m - 1] as real, Weights[m - 1], TotalWeight(m - 1), WeightedSum(s, m - 1));
    }
  }

  /** The upper half of `WeightedSumBounds`. */
  lemma {:induction false} WeightedSumBelow(s: seq<int>, m: nat, lo: int, hi: int)
    requires m <= |s| && m <= |Weights| && AllIn(s, lo, hi)
    ensures WeightedSum(s, m) <= hi as real * TotalWeight(m)
  {
    if m > 0 {
      WeightedSumBelow(s, m - 1, lo, hi);
      assert s[m - 1] <= hi;
      BelowStep(hi as real, s[m - 1] as real, Weights[m - 1], TotalWeight(m - 1), WeightedSum(s, m - 1));
    }
  }

  /** Adding one weighted term no smaller than `lo` keeps the sum above `lo` times the weight. */
  lemma {:induction false} AboveStep(lo: real, x: real, w: real, before: real, acc: real)
    requires w > 0.0 && lo <= x && lo * before <= acc
    ensures lo * (before + w) <= acc + x * w
  {
    assert lo * w <= x * w;
  }

  /** Adding one weighted term no larger than `hi` keeps the sum below `hi` times the weight. */
  lemma {:induction false} BelowStep(hi: real, x: real, w: real, before: real, acc: real)
    requires w > 0.0 && x <= hi && acc <= hi * before
    ensures acc + x * w <= hi * (before + w)
  {
    assert x * w <= hi * w;
  }

  lemma {:induction false} CyberWithinScoreRange(s: seq<int>, lo: int, hi: int)
    requires |s| > 0 && AllIn(s, lo, hi)
    ensures lo as real <= CyberScore(s) <= hi as real
  {
    CyberAveragesTop(s);
    var sorted := SortAsc(s);
    SortAscCorrect(s);
    AllInSubset(s, sorted, lo, hi);
    var k := TopCount(|s|);
    var top := sorted[|s| - k..];
    assert |top| == k;
    assert AllIn(top, lo, hi);
    var total := SumInt(top);
    SumIntBounds(top, lo, hi);
    MeanBounds(total, k, lo, hi);
  }

  lemma {:induction false} MeanBounds(total: int, k: nat, lo: int, hi: int)
    requires k > 0 && k * lo <= total <= k * hi
    ensures lo as real <= total as real / k as real <= hi as real
  {
    QuotientBounds(total as real, k as real, lo as real, hi as real);
  }

  lemma {:induction false} AiWithinScoreRange(s: seq<int>, lo: int, hi: int)
    requires |s| > 0 && AllIn(s, lo, hi)
    ensures lo as real <= AiScore(s) <= hi as real
  {
    var m := Weighted(|s|);
    TotalWeightPositive(m);
    WeightedSumBounds(s, m, lo, hi);
    QuotientBounds(WeightedSum(s, m), TotalWeight(m), lo as real, hi as real);
  }

  lemma {:induction false} WebWithinScoreRange(s: seq<int>, lo: int, hi: int)
    requires |s| > 0 && AllIn(s, lo, hi)
    ensures lo as real <= WebScore(s) <= hi as real
  {
    if |s| <= 2 {
      MeanIntBounds(s, lo, hi);
    } else {
      WebDropsOneMinOneMax(s);
      AllInSubset(s, Trimmed(s), lo, hi);
      MeanIntBounds(Trimmed(s), lo, hi);
    }
  }

  /** Whatever the rule, a team whose scores all lie in [lo, hi] gets an overall score
      in [lo, hi]; in particular scores from 0 to 5 give an overall score from 0 to 5. */
  lemma {:induction false} OverallWithinScoreRange(k: Kind, s: seq<int>, lo: int, hi: int)
    requires |s| > 0 && AllIn(s, lo, hi)
    ensures lo as real <= Overall(k, s) <= hi as real
  {
    match k
    case Cybersecurity => CyberWithinScoreRange(s, lo, hi);
    case ArtificialIntelligence => AiWithinScoreRange(s, lo, hi);
    case WebDevelopment => WebWithinScoreRange(s, lo, hi);
    case MobileDevelopment => MeanIntBounds(s, lo, hi);
  }
}
