/**
 * The price of putting two die-roll histories (first roll, second roll) of
 * one player into the same abstraction bucket in die-roll poker: the
 * expected payoff swing an opponent's two rolls can cause when the two
 * histories, which have different roll sums, are treated alike.
 */
module CostEstimator {

  /**
   * Payoff swing, in units of the largest payoff, of one opponent roll sum
   * against the merged sums `lower` and `higher`: 1 when it ties one of them,
   * 2 when it lies strictly between them (it beats one and loses to the other).
   */
  function OffValue(sum: int, lower: int, higher: int): (off: int)
    ensures 0 <= off <= 2
    ensures off == 0 <==> sum != lower && sum != higher && !(lower < sum < higher)
  {
    (if sum == lower || sum == higher then 1 else 0) + (if lower < sum < higher then 2 else 0)
  }

  /** Sum of OffValue over the opponent's second rolls 1..upto, first roll fixed at `o1`. */
  function RowOff(o1: int, upto: nat, lower: int, higher: int): int
  {
    if upto == 0 then 0 else RowOff(o1, upto - 1, lower, higher) + OffValue(o1 + upto, lower, higher)
  }

  /** Sum of OffValue over the opponent's first rolls 1..upto and second rolls 1..n. */
  function GridOff(n: nat, upto: nat, lower: int, higher: int): int
  {
    if upto == 0 then 0 else GridOff(n, upto - 1, lower, higher) + RowOff(upto, n, lower, higher)
  }

  function Min(a: int, b: int): int { if a <= b then a else b }
  function Max(a: int, b: int): int { if a <= b then b else a }

  /** Error accumulated over second rolls 1..upto of opponent first roll `o1`, each pair weighing `p`. */
  function RowError(p: real, largestPayoff: real, o1: int, upto: nat, lower: int, higher: int): real
  {
    if upto == 0 then 0.0
    else RowError(p, largestPayoff, o1, upto - 1, lower, higher) + p * OffValue(o1 + upto, lower, higher) as real * largestPayoff
  }

  /** Error accumulated over opponent first rolls 1..upto and second rolls 1..n. */
  function GridError(p: real, largestPayoff: real, n: nat, upto: nat, lower: int, higher: int): real
  {
    if upto == 0 then 0.0
    else GridError(p, largestPayoff, n, upto - 1, lower, higher) + RowError(p, largestPayoff, upto, n, lower, higher)
  }

  /**
   * Cost of merging history (f1, s1) with history (f2, s2) for a die with
   * `n` sides: zero when the two sums agree, otherwise the largest payoff
   * times the swing, weighted by 1/(n*n), summed over all opponent roll pairs.
   */
  function MergeCost(n: nat, largestPayoff: real, f1: int, f2: int, s1: int, s2: int): real
  {
    var sum1, sum2 := f1 + s1, f2 + s2;
    if sum1 == sum2 then 0.0
    else GridError(SingleRollProbability(n), largestPayoff, n, n, Min(sum1, sum2), Max(sum1, sum2))
  }

  /** Probability of one particular pair of rolls of a fair `n`-sided die (a die without sides has no rolls to weigh). */
  function SingleRollProbability(n: nat): real
  {
    if n == 0 then 0.0 else 1.0 / (n * n) as real
  }

  /** Computes the cost of merging history (f1, s1) with history (f2, s2). */
  method ComputeMergeCost(n: nat, largestPayoff: real, f1: int, f2: int, s1: int, s2: int) returns (error: real)
    ensures error == MergeCost(n, largestPayoff, f1, f2, s1, s2)
  {
    var sum1, sum2 := f1 + s1, f2 + s2;
    if sum1 == sum2 {
      return 0.0;
    }
    var probabilityOfSingleRoll := SingleRollProbability(n);
    error := AccumulateError(n, probabilityOfSingleRoll, largestPayoff, Min(sum1, sum2), Max(sum1, sum2));
  }

  /** The double loop over the opponent's two rolls, each pair weighing `probabilityOfSingleRoll`. */
  method AccumulateError(n: nat, probabilityOfSingleRoll: real, largestPayoff: real, lower: int, higher: int) returns (error: real)
    ensures error == GridError(probabilityOfSingleRoll, largestPayoff, n, n, lower, higher)
  {
    error := 0.0;
    var o1 := 1;
    while o1 <= n
      invariant 1 <= o1 <= n + 1
      invariant error == GridError(probabilityOfSingleRoll, largestPayoff, n, o1 - 1, lower, higher)
    {
      var o2 := 1;
      while o2 <= n
        invariant 1 <= o2 <= n + 1
        invariant error == GridError(probabilityOfSingleRoll, largestPayoff, n, o1 - 1, lower, higher)
                           + RowError(probabilityOfSingleRoll, largestPayoff, o1, o2 - 1, lower, higher)
      {
        var sum := o1 + o2;
        var offValue := if sum == lower || sum == higher then 1 else 0;
        offValue := offValue + if sum > lower && sum < higher then 2 else 0;
        error := error + probabilityOfSingleRoll * offValue as real * largestPayoff;
        o2 := o2 + 1;
      }
      o1 := o1 + 1;
    }
  }

  lemma AccumulateStep(acc: real, off: real, p: real, l: real)
    ensures acc * (p * l) + p * off * l == (acc + off) * (p * l)
  {
  }

  lemma Distribute(a: real, b: real, w: real)
    ensures a * w + b * w == (a + b) * w
  {
  }

  lemma MulMonotone(x: real, y: real, l: real)
    requires x <= y && l >= 0.0
    ensures x * l <= y * l
  {
  }

  lemma SquareAtLeastOne(n: nat)
    requires n >= 1
    ensures n * n >= 1
  {
    assert n * n >= 1 * n;
  }

  /** A swing count between 0 and 2 * nn, weighted by (1 / nn) * l, lies between 0 and 2 * l. */
  lemma WeightedCountBounds(g: real, nn: real, p: real, l: real)
    requires nn >= 1.0 && p == 1.0 / nn && 0.0 <= g <= 2.0 * nn && l >= 0.0
    ensures 0.0 <= g * (p * l) <= 2.0 * l
  {
    var q := g / nn;
    assert g * (p * l) == q * l;
    assert 0.0 <= q <= 2.0;
    MulMonotone(q, 2.0, l);
    MulMonotone(0.0, q, l);
  }

  /** A positive swing count with positive weights gives a positive error. */
  lemma WeightedCountPositive(g: real, nn: real, p: real, l: real)
    requires nn >= 1.0 && p == 1.0 / nn && g >= 1.0 && l > 0.0
    ensures g * (p * l) > 0.0
  {
    var q := g / nn;
    assert g * (p * l) == q * l;
    assert q > 0.0;
  }

  /** The accumulated error of a row is the row's swing count times `p * largestPayoff`. */
  lemma {:induction false} RowErrorScaled(p: real, largestPayoff: real, o1: int, upto: nat, lower: int, higher: int)
    ensures RowError(p, largestPayoff, o1, upto, lower, higher) == (RowOff(o1, upto, lower, higher) as real) * (p * largestPayoff)
  {
    if upto > 0 {
      RowErrorScaled(p, largestPayoff, o1, upto - 1, lower, higher);
      AccumulateStep(RowOff(o1, upto - 1, lower, higher) as real, OffValue(o1 + upto, lower, higher) as real, p, largestPayoff);
    }
  }

  /** The accumulated error of the grid is the grid's swing count times `p * largestPayoff`. */
  lemma {:induction false} GridErrorScaled(p: real, largestPayoff: real, n: nat, upto: nat, lower: int, higher: int)
    ensures GridError(p, largestPayoff, n, upto, lower, higher) == (GridOff(n, upto, lower, higher) as real) * (p * largestPayoff)
  {
    if upto > 0 {
      GridErrorScaled(p, largestPayoff, n, upto - 1, lower, higher);
      RowErrorScaled(p, largestPayoff, upto, n, lower, higher);
      Distribute(GridOff(n, upto - 1, lower, higher) as real, RowOff(upto, n, lower, higher) as real, p * largestPayoff);
    }
  }

  lemma {:induction false} RowOffBounds(o1: int, upto: nat, lower: int, higher: int)
    ensures 0 <= RowOff(o1, upto, lower, higher) <= 2 * upto
  {
    if upto > 0 {
      RowOffBounds(o1, upto - 1, lower, higher);
    }
  }

  lemma {:induction false} GridOffBounds(n: nat, upto: nat, lower: int, higher: int)
    ensures 0 <= GridOff(n, upto, lower, higher) <= 2 * (n * upto)
  {
    if upto > 0 {
      GridOffBounds(n, upto - 1, lower, higher);
      RowOffBounds(upto, n, lower, higher);
      assert n * upto == n * (upto - 1) + n;
    }
  }

  /** A row is at least any one of its terms. */
  lemma {:induction false} RowOffAtLeast(o1: int, upto: nat, k: int, lower: int, higher: int)
    requires 1 <= k <= upto
    ensures RowOff(o1, upto, lower, higher) >= OffValue(o1 + k, lower, higher)
  {
    RowOffBounds(o1, upto - 1, lower, higher);
    if k < upto {
      RowOffAtLeast(o1, upto - 1, k, lower, higher);
    }
  }

  /** The grid is at least any one of its terms. */
  lemma {:induction false} GridOffAtLeast(n: nat, upto: nat, j: int, k: int, lower: int, higher: int)
    requires 1 <= j <= upto && 1 <= k <= n
    ensures GridOff(n, upto, lower, higher) >= OffValue(j + k, lower, higher)
  {
    GridOffBounds(n, upto - 1, lower, higher);
    if j < upto {
      GridOffAtLeast(n, upto - 1, j, k, lower, higher);
      RowOffBounds(upto, n, lower, higher);
    } else {
      RowOffAtLeast(j, n, k, lower, higher);
    }
  }

  /** The cost of a merge is the grid's swing count, weighted by the probability of a roll pair times the largest payoff. */
  lemma MergeCostScaled(n: nat, largestPayoff: real, f1: int, f2: int, s1: int, s2: int)
    requires f1 + s1 != f2 + s2
    ensures var lower, higher := Min(f1 + s1, f2 + s2), Max(f1 + s1, f2 + s2);
            MergeCost(n, largestPayoff, f1, f2, s1, s2)
            == (GridOff(n, n, lower, higher) as real) * (SingleRollProbability(n) * largestPayoff)
  {
    GridErrorScaled(SingleRollProbability(n), largestPayoff, n, n, Min(f1 + s1, f2 + s2), Max(f1 + s1, f2 + s2));
  }

  /** Merging is free exactly when the two histories have the same roll sum. */
  lemma MergeCostZeroIff(n: nat, largestPayoff: real, f1: int, f2: int, s1: int, s2: int)
    requires largestPayoff > 0.0
    requires 1 <= f1 <= n && 1 <= f2 <= n && 1 <= s1 <= n && 1 <= s2 <= n
    ensures MergeCost(n, largestPayoff, f1, f2, s1, s2) == 0.0 <==> f1 + s1 == f2 + s2
  {
    var sum1, sum2 := f1 + s1, f2 + s2;
    if sum1 != sum2 {
      var lower, higher := Min(sum1, sum2), Max(sum1, sum2);
      // an opponent roll pair that ties the lower sum
      var j := if lower - 1 <= n then lower - 1 else n;
      var k := lower - j;
      GridOffAtLeast(n, n, j, k, lower, higher);
      var nn := n * n;
      SquareAtLeastOne(n);
      assert SingleRollProbability(n) == 1.0 / nn as real;
      MergeCostScaled(n, largestPayoff, f1, f2, s1, s2);
      WeightedCountPositive(GridOff(n, n, lower, higher) as real, nn as real, SingleRollProbability(n), largestPayoff);
    }
  }

  /** Only the minimum and maximum of the two sums matter, so the cost is symmetric. */
  lemma MergeCostSymmetric(n: nat, largestPayoff: real, f1: int, f2: int, s1: int, s2: int)
    ensures MergeCost(n, largestPayoff, f1, f2, s1, s2) == MergeCost(n, largestPayoff, f2, f1, s2, s1)
  {
  }

  /** The cost lies within the bounds [0, 2*largestPayoff] given to each cost variable. */
  lemma MergeCostBounds(n: nat, largestPayoff: real, f1: int, f2: int, s1: int, s2: int)
    requires largestPayoff >= 0.0
    ensures 0.0 <= MergeCost(n, largestPayoff, f1, f2, s1, s2) <= 2.0 * largestPayoff
  {
    var sum1, sum2 := f1 + s1, f2 + s2;
    if sum1 != sum2 && n >= 1 {
      var lower, higher := Min(sum1, sum2), Max(sum1, sum2);
      var count, nn := GridOff(n, n, lower, higher), n * n;
      GridOffBounds(n, n, lower, higher);
      SquareAtLeastOne(n);
      assert 0 <= count <= 2 * nn;
      assert SingleRollProbability(n) == 1.0 / nn as real;
      MergeCostScaled(n, largestPayoff, f1, f2, s1, s2);
      WeightedCountBounds(count as real, nn as real, SingleRollProbability(n), largestPayoff);
    } else if sum1 != sum2 {
      MergeCostScaled(n, largestPayoff, f1, f2, s1, s2);
    }
  }
}
