/**
 Sampling at even steps: the short history of an upgrade voting, and the average of the miners' weights.
 */
module Sampling {
  import opened Common

  // p / q rounded to the nearest integer, halves up.
  function Rounded(p: nat, q: nat): nat
    requires q > 0
  {
    (2 * p + q) / (2 * q)
  }

  // k is at most one half above p / q, and less than one half below.
  predicate IsNearest(k: int, p: nat, q: nat) {
    2 * q * k - q <= 2 * p < 2 * q * k + q
  }

  lemma RoundedIsNearest(p: nat, q: nat)
    requires q > 0
    ensures IsNearest(Rounded(p, q), p, q)
  {
    var a, r := Divide(2 * p + q, 2 * q);
  }

  lemma ProductAtLeast(q: nat, d: nat)
    requires d > 0
    ensures q * d >= q
  {
    assert q * d == q + q * (d - 1);
  }

  lemma Quotient(x: nat, a: nat, r: nat, q: nat)
    requires x == q * a + r && r < q
    ensures x / q == a
  {
    QuotientIsUnique(x / q, x % q, a, r, q);
  }

  lemma QuotientIsUnique(a: nat, r: nat, b: nat, s: nat, q: nat)
    requires q * a + r == q * b + s && r < q && s < q
    ensures a == b
  {
    if a < b {
      assert q * b == q * a + q * (b - a);
      ProductAtLeast(q, b - a);
    } else if b < a {
      assert q * a == q * b + q * (a - b);
      ProductAtLeast(q, a - b);
    }
  }

  lemma SumQuotient(x: nat, y: nat, a: nat, r: nat, b: nat, s: nat, q: nat)
    requires x == q * a + r && y == q * b + s && r < q && s < q
    ensures (x + y) / q == a + b + if r + s < q then 0 else 1
  {
    if r + s < q {
      assert q * (a + b) == q * a + q * b;
      Quotient(x + y, a + b, r + s, q);
    } else {
      assert q * (a + b + 1) == q * a + q * b + q;
      Quotient(x + y, a + b + 1, r + s - q, q);
    }
  }

  lemma Divide(x: nat, q: nat) returns (a: nat, r: nat)
    requires q > 0
    ensures x == q * a + r && r < q && a == x / q && r == x % q
  {
    a, r := x / q, x % q;
  }

  // The quotient of a sum exceeds that of a summand by the quotient of the other one, rounded down or up.
  lemma QuotientGap(x: nat, y: nat, q: nat)
    requires q > 0
    ensures y / q <= (x + y) / q - x / q <= y / q + 1
    ensures y % q == 0 ==> (x + y) / q - x / q == y / q
  {
    var a, r := Divide(x, q);
    var b, s := Divide(y, q);
    SumQuotient(x, y, a, r, b, s, q);
  }

  lemma QuotientGrows(x: nat, y: nat, q: nat)
    requires x <= y && q > 0
    ensures x / q <= y / q
  {
    var a, r := Divide(y - x, q);
    QuotientGap(x, y - x, q);
  }

  lemma RoundedGrows(p: nat, p': nat, q: nat)
    requires p <= p' && q > 0
    ensures Rounded(p, q) <= Rounded(p', q)
  {
    QuotientGrows(2 * p + q, 2 * p' + q, 2 * q);
  }

  // ---------- The short history of an upgrade voting ----------

  // The position in a history of n items that is taken as item i of k.
  function Index(i: nat, n: nat, k: nat): nat
    requires i < k < n
  {
    if k == 1 then 0 else Rounded(i * (n - 1), k - 1)
  }

  // Item i of k, two or more, is taken from the position nearest to i / (k - 1) of the way from the first to the last.
  lemma IndexIsNearest(i: nat, n: nat, k: nat)
    requires i < k < n && k > 1
    ensures IsNearest(Index(i, n, k), i * (n - 1), k - 1)
  {
    RoundedIsNearest(i * (n - 1), k - 1);
  }

  // What is taken as item i of k.
  ghost predicate IsTaken<T>(vote: T, votes: seq<T>, i: nat, k: nat) {
    exists j: nat :: j < |votes| && vote == votes[j] && if k > 1 then IsNearest(j, i * (|votes| - 1), k - 1) else j == 0
  }

  // The steps between the positions are all the same, up to rounding.
  lemma StepsAreEven(i: nat, n: nat, k: nat)
    requires i + 1 < k < n
    ensures
      var gap := Index(i + 1, n, k) - Index(i, n, k);
      && gap >= 1
      && (n - 1) / (k - 1) <= gap <= if (n - 1) % (k - 1) == 0 then (n - 1) / (k - 1) else (n - 1) / (k - 1) + 1
  {
    var m, d := n - 1, k - 1;
    assert (i + 1) * m == i * m + m;
    QuotientGap(2 * (i * m) + d, 2 * m, 2 * d);
    DoubleQuotient(m, d);
    QuotientAtLeastOne(m, d);
  }

  lemma DoubleQuotient(m: nat, d: nat)
    requires d > 0
    ensures 2 * m / (2 * d) == m / d
    ensures m % d == 0 ==> 2 * m % (2 * d) == 0
  {
    var a, r := m / d, m % d;
    assert 2 * d * a == 2 * (d * a);
    Quotient(2 * m, a, 2 * r, 2 * d);
  }

  lemma QuotientAtLeastOne(m: nat, d: nat)
    requires 0 < d <= m
    ensures m / d >= 1
  {
    Quotient(d, 1, 0, d);
    QuotientGap(d, m - d, d);
  }

  lemma {:induction false} IndexesIncrease(i: nat, j: nat, n: nat, k: nat)
    requires i < j < k < n
    ensures Index(i, n, k) < Index(j, n, k)
    decreases j
  {
    StepsAreEven(j - 1, n, k);
    if i < j - 1 {
      IndexesIncrease(i, j - 1, n, k);
    }
  }

  // The sample takes the first item and, from two items on, the last one.
  lemma IndexesSpan(n: nat, k: nat)
    requires 0 < k < n
    ensures Index(0, n, k) == 0 && (k > 1 ==> Index(k - 1, n, k) == n - 1)
  {
    if k > 1 {
      var m, d := n - 1, k - 1;
      Quotient(d, 0, d, 2 * d);
      Quotient(2 * (d * m) + d, m, d, 2 * d) by {
        assert 2 * (d * m) == 2 * d * m;
      }
    }
  }

  lemma IndexIsInRange(i: nat, n: nat, k: nat)
    requires i < k < n
    ensures Index(i, n, k) < n
  {
    IndexesSpan(n, k);
    if k > 1 && i < k - 1 {
      IndexesIncrease(i, k - 1, n, k);
    }
  }

  method SampleHistory<T>(votes: seq<T>, itemCount: nat) returns (res: Option<(seq<T>, nat)>)
    ensures res.None? <==> |votes| <= itemCount
    ensures res.Some? ==>
              var (summary, lastStep) := res.value;
              && |summary| == itemCount
              && (forall i | 0 <= i < itemCount :: IsTaken(summary[i], votes, i, itemCount))
              && (forall i | 0 <= i < itemCount :: Index(i, |votes|, itemCount) < |votes| && summary[i] == votes[Index(i, |votes|, itemCount)])
              && lastStep == if itemCount < 2 then 0
                             else |votes| - 1 - Index(itemCount - 2, |votes|, itemCount)
  {
    if |votes| == 0 || |votes| <= itemCount {
      return None;
    }
    var summary: seq<T>, lastStep: nat := [], 0;
    for i := 0 to itemCount
      invariant |summary| == i
      invariant forall j | 0 <= j < i :: Index(j, |votes|, itemCount) < |votes| && summary[j] == votes[Index(j, |votes|, itemCount)]
      invariant i < itemCount - 1 ==> lastStep == 0
      invariant i == itemCount - 1 && itemCount > 1 ==> lastStep == Index(itemCount - 2, |votes|, itemCount)
      invariant i == itemCount - 1 && itemCount == 1 ==> lastStep == 0
      invariant i == itemCount ==>
                  lastStep == if itemCount < 2 then 0 else |votes| - 1 - Index(itemCount - 2, |votes|, itemCount)
    {
      var idx := Index(i, |votes|, itemCount);
      IndexIsInRange(i, |votes|, itemCount);
      summary := summary + [votes[idx]];
      if i == itemCount - 2 {
        lastStep := idx;
      } else if i == itemCount - 1 {
        IndexesSpan(|votes|, itemCount);
        if itemCount > 1 {
          IndexIsInRange(itemCount - 2, |votes|, itemCount);
        }
        lastStep := idx - lastStep;
      }
    }
    forall i | 0 <= i < itemCount ensures IsTaken(summary[i], votes, i, itemCount) {
      if itemCount > 1 {
        IndexIsNearest(i, |votes|, itemCount);
      }
      assert summary[i] == votes[Index(i, |votes|, itemCount)];
    }
    res := Some((summary, lastStep));
  }

  // ---------- The weights of the miners ----------

  ghost predicate IsSorted(values: seq<real>) {
    forall i, j | 0 <= i < j < |values| :: values[i] <= values[j]
  }

  // The first index whose value exceeds the given one.
  method Search(values: seq<real>, value: real) returns (index: nat)
    requires IsSorted(values)
    ensures index <= |values|
    ensures forall i | 0 <= i < index :: values[i] <= value
    ensures forall i | index <= i < |values| :: values[i] > value
  {
    index := 0;
    var end := |values|;
    while index < end
      invariant index <= end <= |values|
      invariant forall i | 0 <= i < index :: values[i] <= value
      invariant forall i | end <= i < |values| :: values[i] > value
    {
      var middle := (index + end) / 2;
      if values[middle] > value {
        end := middle;
      } else {
        index := middle + 1;
      }
    }
  }

  method AddToSorted(values: seq<real>, value: real) returns (res: seq<real>)
    requires IsSorted(values)
    ensures IsSorted(res) && multiset(res) == multiset(values) + multiset{value}
  {
    var index := Search(values, value);
    res := values[..index] + [value] + values[index..];
    assert values == values[..index] + values[index..];
  }

  // Adding the weights one by one sorts them.
  method SortWeights(weights: seq<real>) returns (values: seq<real>)
    ensures IsSorted(values) && multiset(values) == multiset(weights)
  {
    values := [];
    for i := 0 to |weights|
      invariant IsSorted(values) && multiset(values) == multiset(weights[..i])
    {
      assert weights[..i + 1] == weights[..i] + [weights[i]];
      values := AddToSorted(values, weights[i]);
    }
    assert weights[..|weights|] == weights;
  }

  // The index that sample i of n reads in a list of the given length.
  function SampleIndex(i: nat, n: nat, length: nat): (index: nat)
    requires n > 0 && length > 0
    ensures index < length
  {
    var index := Rounded(length * i, n);
    if index >= length then length - 1 else index
  }

  // It is the position nearest to i / n of the length, or the last one if there is none so far.
  ghost predicate IsSampled(j: nat, i: nat, n: nat, length: nat) {
    && j < length
    && (IsNearest(j, length * i, n) || (j == length - 1 && 2 * (length * i) >= 2 * n * j + n))
  }

  lemma SampleIndexIsNearest(i: nat, n: nat, length: nat)
    requires n > 0 && length > 0
    ensures IsSampled(SampleIndex(i, n, length), i, n, length)
  {
    RoundedIsNearest(length * i, n);
    var index := Rounded(length * i, n);
    if index >= length {
      assert 2 * n * index >= 2 * n * length == 2 * n * (length - 1) + 2 * n by {
        assert 2 * n * index == 2 * n * length + 2 * n * (index - length);
      }
    }
  }

  ghost predicate ReadsNearest(n: nat, length: nat)
    requires n > 0 && length > 0
  {
    forall i | 0 <= i < n :: IsSampled(SampleIndex(i, n, length), i, n, length)
  }

  lemma SamplesAreNearest(n: nat, length: nat)
    requires n > 0 && length > 0
    ensures ReadsNearest(n, length)
  {
    hide SampleIndex, IsSampled;
    forall i | 0 <= i < n ensures IsSampled(SampleIndex(i, n, length), i, n, length) {
      SampleIndexIsNearest(i, n, length);
    }
  }

  lemma SampleIndexesDoNotDecrease(i: nat, n: nat, length: nat)
    requires n > 0 && length > 0
    ensures SampleIndex(i, n, length) <= SampleIndex(i + 1, n, length)
  {
    assert length * (i + 1) == length * i + length;
    RoundedGrows(length * i, length * (i + 1), n);
  }

  // As many samples as values read each value once.
  lemma EveryValueIsSampled(i: nat, n: nat)
    requires i < n
    ensures SampleIndex(i, n, n) == i
  {
    Quotient(2 * (n * i) + n, i, n, 2 * n) by {
      assert 2 * (n * i) == 2 * n * i;
    }
  }

  function SampledSum(values: seq<real>, n: nat, count: nat): real
    requires n > 0 && |values| > 0
  {
    if count == 0 then 0.0 else SampledSum(values, n, count - 1) + values[SampleIndex(count - 1, n, |values|)]
  }

  method CalculateAverage(values: seq<real>, n: nat) returns (average: real)
    requires n > 0
    ensures |values| == 0 ==> average == 0.0
    ensures |values| > 0 ==> average * n as real == SampledSum(values, n, n)
    ensures |values| > 0 ==> ReadsNearest(n, |values|)
    ensures |values| > 0 && IsSorted(values) ==> values[0] <= average <= values[|values| - 1]
  {
    hide SampleIndex, IsSorted, ReadsNearest;
    if |values| == 0 {
      return 0.0;
    }
    SamplesAreNearest(n, |values|);
    var total := 0.0;
    for i := 0 to n
      invariant total == SampledSum(values, n, i)
    {
      total := total + values[SampleIndex(i, n, |values|)];
    }
    average := total / n as real;
    if IsSorted(values) {
      SampledSumIsBounded(values, n, n);
      TimesIsProduct(n, values[0]);
      TimesIsProduct(n, values[|values| - 1]);
      MeanIsBounded(total, n as real, values[0], values[|values| - 1]);
    }
  }

  lemma MeanIsBounded(total: real, n: real, low: real, high: real)
    requires n > 0.0 && n * low <= total <= n * high
    ensures low <= total / n <= high
  {
    var average := total / n;
    assert average * n == total;
    assert n * (average - low) >= 0.0 && n * (high - average) >= 0.0;
  }

  function Times(count: nat, value: real): real {
    if count == 0 then 0.0 else Times(count - 1, value) + value
  }

  lemma {:induction false} TimesIsProduct(count: nat, value: real)
    ensures Times(count, value) == count as real * value
  {
    if count > 0 {
      TimesIsProduct(count - 1, value);
      var fewer := (count - 1) as real;
      assert count as real == fewer + 1.0;
      assert (fewer + 1.0) * value == fewer * value + value;
    }
  }

  lemma {:induction false} SampledSumIsBounded(values: seq<real>, n: nat, count: nat)
    requires n > 0 && |values| > 0 && IsSorted(values)
    ensures Times(count, values[0]) <= SampledSum(values, n, count) <= Times(count, values[|values| - 1])
  {
    if count > 0 {
      SampledSumIsBounded(values, n, count - 1);
    }
  }
}
