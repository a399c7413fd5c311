/** Scoring rules of the counter game (src/scoring.rs): how far a stopped
    counter is from its target on the 0..100 ring, what that closeness is
    worth, and the rounded-up mean of the scores of one turn. */
module Scoring {

  import opened Arithmetic

  /** Number of positions on the counter's ring: 0, 1, ..., 100. */
  const RingSize: nat := 101

  /** Distance between two positions without going round the ring. */
  function DirectDistance(target: nat, counter: nat): (d: nat)
    ensures target == counter + d || counter == target + d
  {
    if target > counter then target - counter else counter - target
  }

  /** The shorter of the two ways from target to counter round the ring.
      The source subtracts the direct distance from 101 in unsigned
      arithmetic, so the direct distance must not exceed 101; on the ring
      itself (both positions at most 100) that always holds. */
  function CircularDifference(target: nat, counter: nat): (d: nat)
    requires DirectDistance(target, counter) <= RingSize
    ensures d <= DirectDistance(target, counter)
    ensures d <= RingSize - DirectDistance(target, counter)
    ensures d == DirectDistance(target, counter) || d == RingSize - DirectDistance(target, counter)
    ensures d <= 50
  {
    var direct := DirectDistance(target, counter);
    if direct <= RingSize - direct then direct else RingSize - direct
  }

  /** Points earned for stopping `difference` positions away from the target. */
  function BaseScore(difference: nat): (b: nat)
    ensures b <= 100 && b % 20 == 0
    ensures b == 100 <==> difference == 0
    ensures b >= 20 <==> difference <= 50
  {
    if difference == 0 then 100
    else if difference <= 5 then 80
    else if difference <= 10 then 60
    else if difference <= 20 then 40
    else if difference <= 50 then 20
    else 0
  }

  /** Score of one objective: base score plus strength, shared out over the
      laps the counter made (`miss` wrap-arounds plus the current one),
      rounded down. */
  function CalculateScore(target: nat, counter: nat, strength: nat, miss: nat): (s: nat)
    requires DirectDistance(target, counter) <= RingSize
    ensures s * (miss + 1) <= BaseScore(CircularDifference(target, counter)) + strength
    ensures BaseScore(CircularDifference(target, counter)) + strength < (s + 1) * (miss + 1)
  {
    (BaseScore(CircularDifference(target, counter)) + strength) / (miss + 1)
  }

  /** Sum of a turn's scores: no single score exceeds it. */
  function Sum(scores: seq<nat>): (total: nat)
    ensures forall i :: 0 <= i < |scores| ==> scores[i] <= total
  {
    if scores == [] then 0 else scores[0] + Sum(scores[1..])
  }

  /** The mean of a turn's scores rounded up; zero when there are none. */
  function CalculateAverageScore(scores: seq<nat>): (avg: nat)
    ensures scores == [] ==> avg == 0
    ensures scores != [] ==> Sum(scores) <= avg * |scores|
    ensures scores != [] ==> (avg - 1) * |scores| < Sum(scores)
  {
    if scores == [] then 0
    else
      var n, total := |scores|, Sum(scores);
      CeilingDivision(total, n);
      (total + n - 1) / n
  }

  /** `(total + n - 1) / n` is the least multiple count of `n` reaching `total`. */
  lemma CeilingDivision(total: nat, n: nat)
    requires n > 0
    ensures total <= ((total + n - 1) / n) * n
    ensures (((total + n - 1) / n) - 1) * n < total
  {
    var q, r := (total + n - 1) / n, (total + n - 1) % n;
    assert total + n - 1 == q * n + r;
    assert (q - 1) * n == q * n - n;
  }

  /** Smallest score of a non-empty turn. */
  function Minimum(scores: seq<nat>): (m: nat)
    requires scores != []
    ensures m in scores
    ensures forall i :: 0 <= i < |scores| ==> m <= scores[i]
  {
    if |scores| == 1 then scores[0]
    else
      var rest := Minimum(scores[1..]);
      if scores[0] <= rest then scores[0] else rest
  }

  /** Largest score of a non-empty turn. */
  function Maximum(scores: seq<nat>): (m: nat)
    requires scores != []
    ensures m in scores
    ensures forall i :: 0 <= i < |scores| ==> scores[i] <= m
  {
    if |scores| == 1 then scores[0]
    else
      var rest := Maximum(scores[1..]);
      if scores[0] >= rest then scores[0] else rest
  }

  /** The order of the two positions does not matter. */
  lemma ScoreSymmetric(target: nat, counter: nat, strength: nat, miss: nat)
    requires DirectDistance(target, counter) <= RingSize
    ensures DirectDistance(counter, target) == DirectDistance(target, counter)
    ensures CalculateScore(target, counter, strength, miss) == CalculateScore(counter, target, strength, miss)
  {
  }

  /** On the ring every stop earns at least the lowest tier, 20 points: the
      zero tier of the table is never reached. */
  lemma RingStopEarnsAtLeastTwenty(target: nat, counter: nat)
    requires target <= 100 && counter <= 100
    ensures DirectDistance(target, counter) <= RingSize
    ensures BaseScore(CircularDifference(target, counter)) >= 20
  {
  }

  /** A stop closer to the target is never worth less. */
  lemma BaseScoreNonIncreasing(d1: nat, d2: nat)
    requires d1 <= d2
    ensures BaseScore(d2) <= BaseScore(d1)
  {
  }

  /** More wrap-arounds never raise the score. */
  lemma ScoreNonIncreasingInMiss(target: nat, counter: nat, strength: nat, miss1: nat, miss2: nat)
    requires DirectDistance(target, counter) <= RingSize
    requires miss1 <= miss2
    ensures CalculateScore(target, counter, strength, miss2) <= CalculateScore(target, counter, strength, miss1)
  {
    DivisorMonotone(BaseScore(CircularDifference(target, counter)) + strength, miss1 + 1, miss2 + 1);
  }

  /** The score examples that the source's own unit tests check. */
  lemma ScoreExamples()
    ensures CalculateScore(50, 50, 50, 0) == 150
    ensures CalculateScore(50, 52, 50, 0) == 130 && CalculateScore(50, 47, 50, 0) == 130
    ensures CalculateScore(50, 58, 50, 0) == 110 && CalculateScore(50, 42, 50, 0) == 110
    ensures CalculateScore(50, 65, 50, 0) == 90 && CalculateScore(50, 35, 50, 0) == 90
    ensures CalculateScore(50, 80, 50, 0) == 70 && CalculateScore(50, 25, 50, 0) == 70
    ensures CircularDifference(0, 100) == 1 && CircularDifference(100, 0) == 1
    ensures CalculateScore(0, 100, 50, 0) == 130 && CalculateScore(100, 0, 50, 0) == 130
    ensures CalculateScore(50, 50, 50, 1) == 75 && CalculateScore(50, 50, 50, 2) == 50
  {
  }

  /** Going round the ring from 95 to 15 takes 21 steps (five to 100, one
      to 0, fifteen to 15), so the lowest tier applies. The source's unit
      test at src/scoring.rs:88-89 expects the score 90, which would need a
      distance of 20; the code gives 70. */
  lemma WrapAroundExample()
    ensures CircularDifference(15, 95) == 21 && CircularDifference(95, 15) == 21
    ensures CalculateScore(15, 95, 50, 0) == 70 && CalculateScore(95, 15, 50, 0) == 70
  {
  }

  /** Every score at least `lo` makes the sum at least `|scores| * lo`. */
  lemma {:induction false} SumAtLeast(scores: seq<nat>, lo: nat)
    requires forall i :: 0 <= i < |scores| ==> lo <= scores[i]
    ensures |scores| * lo <= Sum(scores)
  {
    if scores != [] {
      SumAtLeast(scores[1..], lo);
      assert |scores| * lo == lo + |scores[1..]| * lo;
    }
  }

  /** Every score at most `hi` makes the sum at most `|scores| * hi`. */
  lemma {:induction false} SumAtMost(scores: seq<nat>, hi: nat)
    requires forall i :: 0 <= i < |scores| ==> scores[i] <= hi
    ensures Sum(scores) <= |scores| * hi
  {
    if scores != [] {
      SumAtMost(scores[1..], hi);
      assert |scores| * hi == hi + |scores[1..]| * hi;
    }
  }

  /** The rounded-up mean lies between the smallest and the largest score. */
  lemma AverageWithinRange(scores: seq<nat>)
    requires scores != []
    ensures Minimum(scores) <= CalculateAverageScore(scores) <= Maximum(scores)
  {
    var n, avg := |scores|, CalculateAverageScore(scores);
    var lo, hi := Minimum(scores), Maximum(scores);
    SumAtLeast(scores, lo);
    SumAtMost(scores, hi);
    assert lo * n <= avg * n;
    MulCancel(lo, avg, n);
    assert (avg - 1) * n < hi * n;
    MulStrictCancel(avg - 1, hi, n);
  }

  /** The mean of one score is that score. */
  lemma AverageOfOne(x: nat)
    ensures CalculateAverageScore([x]) == x
  {
    assert Sum([x]) == x + Sum([]);
  }

  /** The average examples that the source's own unit tests check. */
  lemma AverageExamples()
    ensures CalculateAverageScore([]) == 0
    ensures CalculateAverageScore([100, 80, 60, 40, 20]) == 60
    ensures CalculateAverageScore([75]) == 75
    ensures CalculateAverageScore([10, 11]) == 11
  {
    assert Sum([20]) == 20 + Sum([]);
    assert Sum([40, 20]) == 40 + Sum([20]);
    assert Sum([60, 40, 20]) == 60 + Sum([40, 20]);
    assert Sum([80, 60, 40, 20]) == 80 + Sum([60, 40, 20]);
    assert Sum([100, 80, 60, 40, 20]) == 100 + Sum([80, 60, 40, 20]);
    AverageOfOne(75);
    assert Sum([11]) == 11 + Sum([]);
    assert Sum([10, 11]) == 10 + Sum([11]);
  }
}
