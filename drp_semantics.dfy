/**
 * What the die-roll poker model means under a valuation: the partition
 * constraint picks exactly one bucket, a pairwise constraint forces a cost
 * only when both histories share the bucket, the objective is a uniform
 * multiple of the total cost, and with one bucket per roll sum the model
 * has a zero-cost solution.
 */
module DieRollPokerSemantics {
  import opened ConstraintLog
  import opened CostEstimator
  import opened DieRollPoker
  import opened DieRollPokerLayout

  /* ---------- the partition constraint ---------- */

  /** The indicators of history (f, s) for buckets 0..k-1 are all 0 or 1. */
  predicate BinaryIndicators(val: Var -> real, f: int, s: int, k: nat)
  {
    forall b :: 0 <= b < k ==> val(Assign(f, s, b)) == 0.0 || val(Assign(f, s, b)) == 1.0
  }

  /** How many of the buckets 0..k-1 the indicators of (f, s) select. */
  function Ones(val: Var -> real, f: int, s: int, k: nat): nat
  {
    if k == 0 then 0 else Ones(val, f, s, k - 1) + (if val(Assign(f, s, k - 1)) == 1.0 then 1 else 0)
  }

  /** None of the buckets 0..k-1 is selected for (f, s). */
  predicate NoneSelected(val: Var -> real, f: int, s: int, k: nat)
  {
    forall c :: 0 <= c < k ==> val(Assign(f, s, c)) != 1.0
  }

  /** No bucket among 0..k-1 other than `b` is selected for (f, s). */
  predicate OnlySelected(val: Var -> real, f: int, s: int, k: nat, b: int)
  {
    forall c :: 0 <= c < k && c != b ==> val(Assign(f, s, c)) != 1.0
  }

  /** Exactly one of the buckets 0..k-1 is selected for (f, s). */
  predicate ExactlyOneBucket(val: Var -> real, f: int, s: int, k: nat)
  {
    exists b :: 0 <= b < k && val(Assign(f, s, b)) == 1.0 && OnlySelected(val, f, s, k, b)
  }

  lemma {:induction false} AssignTermsValue(val: Var -> real, f: int, s: int, k: nat)
    requires BinaryIndicators(val, f, s, k)
    ensures TermsValue(AssignTerms(f, s, k), val) == Ones(val, f, s, k) as real
  {
    if k > 0 {
      var ts := AssignTerms(f, s, k);
      assert ts[..|ts| - 1] == AssignTerms(f, s, k - 1);
      assert BinaryIndicators(val, f, s, k - 1);
      AssignTermsValue(val, f, s, k - 1);
    }
  }

  lemma {:induction false} OnesZero(val: Var -> real, f: int, s: int, k: nat)
    ensures Ones(val, f, s, k) == 0 <==> NoneSelected(val, f, s, k)
  {
    if k > 0 {
      OnesZero(val, f, s, k - 1);
    }
  }

  lemma {:induction false} OnesOne(val: Var -> real, f: int, s: int, k: nat)
    ensures Ones(val, f, s, k) == 1 <==> ExactlyOneBucket(val, f, s, k)
    decreases k, 1
  {
    if k > 0 {
      OnesOneFromCount(val, f, s, k);
      OnesOneToCount(val, f, s, k);
    }
  }

  /** One step of OnesOne, from the count to the single bucket. */
  lemma OnesOneFromCount(val: Var -> real, f: int, s: int, k: nat)
    requires k >= 1
    ensures Ones(val, f, s, k) == 1 ==> ExactlyOneBucket(val, f, s, k)
    decreases k, 0
  {
    OnesZero(val, f, s, k - 1);
    OnesOne(val, f, s, k - 1);
    if Ones(val, f, s, k) == 1 {
      if val(Assign(f, s, k - 1)) == 1.0 {
        assert OnlySelected(val, f, s, k, k - 1);
      } else {
        var b :| 0 <= b < k - 1 && val(Assign(f, s, b)) == 1.0 && OnlySelected(val, f, s, k - 1, b);
        assert OnlySelected(val, f, s, k, b);
      }
    }
  }

  /** One step of OnesOne, from the single bucket to the count. */
  lemma OnesOneToCount(val: Var -> real, f: int, s: int, k: nat)
    requires k >= 1
    ensures ExactlyOneBucket(val, f, s, k) ==> Ones(val, f, s, k) == 1
    decreases k, 0
  {
    OnesZero(val, f, s, k - 1);
    OnesOne(val, f, s, k - 1);
    if ExactlyOneBucket(val, f, s, k) {
      var b :| 0 <= b < k && val(Assign(f, s, b)) == 1.0 && OnlySelected(val, f, s, k, b);
      if b < k - 1 {
        assert OnlySelected(val, f, s, k - 1, b);
        assert ExactlyOneBucket(val, f, s, k - 1);
      } else {
        assert NoneSelected(val, f, s, k - 1);
      }
    }
  }

  /**
   * For 0/1 indicators, the sum-to-one constraint of history (f, s) holds
   * exactly when the history is put into exactly one bucket.
   */
  lemma PartitionConstraintMeansOneBucket(val: Var -> real, f: int, s: int, buckets: nat)
    requires BinaryIndicators(val, f, s, buckets)
    ensures Holds(SumToOne(f, s, buckets), val) <==> ExactlyOneBucket(val, f, s, buckets)
  {
    AssignTermsValue(val, f, s, buckets);
    OnesOne(val, f, s, buckets);
  }

  /* ---------- the pairwise cost constraints ---------- */

  /** The two sides of a pairwise constraint under a valuation. */
  lemma LinkValue(val: Var -> real, cost: real, f1: int, f2: int, s1: int, s2: int, b: int, f: int, s: int)
    ensures Holds(Link(cost, f1, f2, s1, s2, b, f, s), val)
            <==> cost * val(Assign(f1, s1, b)) + cost * val(Assign(f2, s2, b)) - cost <= val(Cost(f, s))
  {
    var t1, t2 := Term(cost, Assign(f1, s1, b)), Term(cost, Assign(f2, s2, b));
    assert [t1][..0] == [];
    assert [t1, t2][..1] == [t1];
    assert TermsValue([t1], val) == cost * val(Assign(f1, s1, b));
    assert TermsValue([t1, t2], val) == cost * val(Assign(f1, s1, b)) + cost * val(Assign(f2, s2, b));
    var c := Term(1.0, Cost(f, s));
    assert [c][..0] == [];
    assert TermsValue([c], val) == 1.0 * val(Cost(f, s));
  }

  /**
   * For 0/1 indicators x1 = B(f1;s1;b), x2 = B(f2;s2;b) and a nonnegative
   * cost, `cost * x1 + cost * x2 - cost <= Cost(f;s)` holds exactly when
   * Cost(f;s) is at least the cost whenever both histories are in bucket b,
   * given that Cost(f;s) is nonnegative (its lower bound).
   */
  lemma LinkForcesCostOnlyWhenShared(val: Var -> real, cost: real, f1: int, f2: int, s1: int, s2: int, b: int, f: int, s: int)
    requires val(Assign(f1, s1, b)) == 0.0 || val(Assign(f1, s1, b)) == 1.0
    requires val(Assign(f2, s2, b)) == 0.0 || val(Assign(f2, s2, b)) == 1.0
    requires cost >= 0.0 && val(Cost(f, s)) >= 0.0
    ensures Holds(Link(cost, f1, f2, s1, s2, b, f, s), val)
            <==> (val(Assign(f1, s1, b)) == 1.0 && val(Assign(f2, s2, b)) == 1.0 ==> val(Cost(f, s)) >= cost)
  {
    LinkValue(val, cost, f1, f2, s1, s2, b, f, s);
    var x1, x2 := val(Assign(f1, s1, b)), val(Assign(f2, s2, b));
    assert cost * x1 == (if x1 == 1.0 then cost else 0.0);
    assert cost * x2 == (if x2 == 1.0 then cost else 0.0);
  }

  /** Whether the first `upto` iterations of `loop` emit the constraints of histories (f1, s1), (f2, s2) and bucket b. */
  predicate Covers(n: nat, buckets: nat, loop: LinkLoop, upto: nat, f1: int, f2: int, s1: int, s2: int, b: int)
  {
    match loop
    case FirstRoll1Loop => 1 <= f1 <= upto && 1 <= f2 <= n && 1 <= s1 <= n && 1 <= s2 <= n && 0 <= b < buckets
    case FirstRoll2Loop(g1) => f1 == g1 && 1 <= f2 <= upto && 1 <= s1 <= n && 1 <= s2 <= n && 0 <= b < buckets
    case SecondRoll1Loop(g1, g2) => f1 == g1 && f2 == g2 && 1 <= s1 <= upto && 1 <= s2 <= n && 0 <= b < buckets
    case SecondRoll2Loop(g1, g2, t1) => f1 == g1 && f2 == g2 && s1 == t1 && 1 <= s2 <= upto && 0 <= b < buckets
    case BucketLoop(g1, g2, t1, t2) => f1 == g1 && f2 == g2 && s1 == t1 && s2 == t2 && 0 <= b < upto
  }

  lemma {:induction false} LinksContain(n: nat, largestPayoff: real, buckets: nat, loop: LinkLoop, upto: nat,
                                        f1: int, f2: int, s1: int, s2: int, b: int)
    requires Covers(n, buckets, loop, upto, f1, f2, s1, s2, b)
    ensures var cost := MergeCost(n, largestPayoff, f1, f2, s1, s2);
            AddConstr(Link(cost, f1, f2, s1, s2, b, f1, s1)) in Links(n, largestPayoff, buckets, loop, upto) &&
            AddConstr(Link(cost, f1, f2, s1, s2, b, f2, s2)) in Links(n, largestPayoff, buckets, loop, upto)
    decreases Depth(loop), upto
  {
    var done := Links(n, largestPayoff, buckets, loop, upto - 1);
    var inner := LastIteration(n, largestPayoff, buckets, loop, upto);
    if LoopIndex(loop, f1, f2, s1, s2, b) == upto {
      match loop
      case FirstRoll1Loop =>
        LinksContain(n, largestPayoff, buckets, FirstRoll2Loop(upto), n, f1, f2, s1, s2, b);
      case FirstRoll2Loop(_) =>
        LinksContain(n, largestPayoff, buckets, SecondRoll1Loop(f1, upto), n, f1, f2, s1, s2, b);
      case SecondRoll1Loop(_, _) =>
        LinksContain(n, largestPayoff, buckets, SecondRoll2Loop(f1, f2, upto), n, f1, f2, s1, s2, b);
      case SecondRoll2Loop(_, _, _) =>
        LinksContain(n, largestPayoff, buckets, BucketLoop(f1, f2, s1, upto), buckets, f1, f2, s1, s2, b);
      case BucketLoop(_, _, _, _) =>
    } else {
      LinksContain(n, largestPayoff, buckets, loop, upto - 1, f1, f2, s1, s2, b);
    }
  }

  /** The index that `loop` runs over, for the constraints of (f1, s1), (f2, s2) and bucket b. */
  function LoopIndex(loop: LinkLoop, f1: int, f2: int, s1: int, s2: int, b: int): int
  {
    match loop
    case FirstRoll1Loop => f1
    case FirstRoll2Loop(_) => f2
    case SecondRoll1Loop(_, _) => s1
    case SecondRoll2Loop(_, _, _) => s2
    case BucketLoop(_, _, _, _) => b + 1
  }

  /** The records of the last of `upto` iterations of `loop`. */
  function LastIteration(n: nat, largestPayoff: real, buckets: nat, loop: LinkLoop, upto: nat): (r: seq<Record>)
    requires upto >= 1
    ensures Links(n, largestPayoff, buckets, loop, upto) == Links(n, largestPayoff, buckets, loop, upto - 1) + r
  {
    match loop
    case FirstRoll1Loop => Links(n, largestPayoff, buckets, FirstRoll2Loop(upto), n)
    case FirstRoll2Loop(f1) => Links(n, largestPayoff, buckets, SecondRoll1Loop(f1, upto), n)
    case SecondRoll1Loop(f1, f2) => Links(n, largestPayoff, buckets, SecondRoll2Loop(f1, f2, upto), n)
    case SecondRoll2Loop(f1, f2, s1) => Links(n, largestPayoff, buckets, BucketLoop(f1, f2, s1, upto), buckets)
    case BucketLoop(f1, f2, s1, s2) => PairLinks(n, largestPayoff, f1, f2, s1, s2, upto - 1)
  }

  /**
   * For every ordered pair of histories with rolls in 1..numSides and every
   * bucket, the model holds both pairwise constraints, priced with the
   * merge cost.
   */
  lemma PairLinksEmitted(n: nat, largestPayoff: real, buckets: nat, f1: int, f2: int, s1: int, s2: int, b: int)
    requires 1 <= f1 <= n && 1 <= f2 <= n && 1 <= s1 <= n && 1 <= s2 <= n && 0 <= b < buckets
    ensures var cost := MergeCost(n, largestPayoff, f1, f2, s1, s2);
            AddConstr(Link(cost, f1, f2, s1, s2, b, f1, s1)) in ModelRecords(n, largestPayoff, buckets) &&
            AddConstr(Link(cost, f1, f2, s1, s2, b, f2, s2)) in ModelRecords(n, largestPayoff, buckets)
  {
    LinksContain(n, largestPayoff, buckets, FirstRoll1Loop, n, f1, f2, s1, s2, b);
  }

  /**
   * In any valuation satisfying the model, two histories put into the same
   * bucket both carry at least the cost of merging them.
   */
  lemma SharedBucketPaysMergeCost(n: nat, largestPayoff: real, buckets: nat, val: Var -> real,
                                  f1: int, f2: int, s1: int, s2: int, b: int)
    requires AllSatisfied(ModelRecords(n, largestPayoff, buckets), val)
    requires 1 <= f1 <= n && 1 <= f2 <= n && 1 <= s1 <= n && 1 <= s2 <= n && 0 <= b < buckets
    requires val(Assign(f1, s1, b)) == 1.0 && val(Assign(f2, s2, b)) == 1.0
    ensures val(Cost(f1, s1)) >= MergeCost(n, largestPayoff, f1, f2, s1, s2)
    ensures val(Cost(f2, s2)) >= MergeCost(n, largestPayoff, f1, f2, s1, s2)
  {
    var cost := MergeCost(n, largestPayoff, f1, f2, s1, s2);
    var rs := ModelRecords(n, largestPayoff, buckets);
    PairLinksEmitted(n, largestPayoff, buckets, f1, f2, s1, s2, b);
    var r1, r2 := AddConstr(Link(cost, f1, f2, s1, s2, b, f1, s1)), AddConstr(Link(cost, f1, f2, s1, s2, b, f2, s2));
    var i :| 0 <= i < |rs| && rs[i] == r1;
    var j :| 0 <= j < |rs| && rs[j] == r2;
    assert Satisfied(rs[i], val) && Satisfied(rs[j], val);
    LinkValue(val, cost, f1, f2, s1, s2, b, f1, s1);
    LinkValue(val, cost, f1, f2, s1, s2, b, f2, s2);
  }

  /* ---------- the objective ---------- */

  /** `c` added `k` times over, as the objective accumulates the copies of a cost variable. */
  function Times(c: real, k: nat): real
  {
    if k == 0 then 0.0 else Times(c, k - 1) + c
  }

  lemma {:induction false} TimesZero(k: nat)
    ensures Times(0.0, k) == 0.0
  {
    if k > 0 {
      TimesZero(k - 1);
    }
  }

  lemma {:induction false} TimesAdd(a: real, b: real, sum: real, k: nat)
    requires sum == a + b
    ensures Times(a, k) + Times(b, k) == Times(sum, k)
  {
    if k > 0 {
      TimesAdd(a, b, sum, k - 1);
    }
  }

  lemma {:induction false} TimesIsProduct(c: real, k: nat)
    ensures Times(c, k) == c * k as real
  {
    if k > 0 {
      TimesIsProduct(c, k - 1);
      assert c * (k - 1) as real + c == c * k as real;
    }
  }

  /** For at least one copy, adding copies preserves the order of the values added. */
  lemma {:induction false} TimesOrder(a: real, b: real, k: nat)
    requires k >= 1
    ensures Times(a, k) <= Times(b, k) <==> a <= b
  {
    if k > 1 {
      TimesOrder(a, b, k - 1);
    } else {
      assert Times(a, 0) == 0.0 == Times(b, 0);
    }
  }

  lemma {:induction false} CostTermsValue(val: Var -> real, f: int, s: int, k: nat)
    ensures SumValue(CostTerms(f, s, k), val) == Times(val(Cost(f, s)), k)
  {
    if k > 0 {
      CostTermsValue(val, f, s, k - 1);
      SumValueAppend(CostTerms(f, s, k - 1), [Cost(f, s)], val);
      assert SumValue([Cost(f, s)], val) == val(Cost(f, s)) by {
        assert PrefixSum([Cost(f, s)], 0, val) == 0.0;
      }
    }
  }

  /** The objective terms of the row of first roll `f` are worth `copies` times the row's total cost. */
  lemma {:induction false} RowObjectiveValue(n: nat, copies: nat, f: int, upto: nat, val: Var -> real)
    ensures SumValue(ObjectiveTerms(n, copies, SecondRollLoop(f), upto), val) == Times(CostSum(n, SecondRollLoop(f), upto, val), copies)
    decreases upto
  {
    if upto == 0 {
      TimesZero(copies);
    } else {
      RowObjectiveValue(n, copies, f, upto - 1, val);
      CostTermsValue(val, f, upto, copies);
      ObjectiveCellAdded(n, copies, f, upto, val);
    }
  }

  /** Adding history (f, upto) to the objective adds `copies` times its cost variable. */
  lemma ObjectiveCellAdded(n: nat, copies: nat, f: int, upto: nat, val: Var -> real)
    requires upto >= 1
    requires SumValue(ObjectiveTerms(n, copies, SecondRollLoop(f), upto - 1), val) == Times(CostSum(n, SecondRollLoop(f), upto - 1, val), copies)
    requires SumValue(CostTerms(f, upto, copies), val) == Times(val(Cost(f, upto)), copies)
    ensures SumValue(ObjectiveTerms(n, copies, SecondRollLoop(f), upto), val) == Times(CostSum(n, SecondRollLoop(f), upto, val), copies)
  {
    var loop := SecondRollLoop(f);
    var done, cell := ObjectiveTerms(n, copies, loop, upto - 1), CostTerms(f, upto, copies);
    assert ObjectiveTerms(n, copies, loop, upto) == done + cell;
    assert CostSum(n, loop, upto, val) == CostSum(n, loop, upto - 1, val) + val(Cost(f, upto));
    SumValueAppend(done, cell, val);
    TimesAdd(CostSum(n, loop, upto - 1, val), val(Cost(f, upto)), CostSum(n, loop, upto, val), copies);
  }

  /** The objective terms of the first `upto` rows are worth `copies` times their total cost. */
  lemma {:induction false} ObjectiveTermsValue(n: nat, copies: nat, upto: nat, val: Var -> real)
    ensures SumValue(ObjectiveTerms(n, copies, FirstRollLoop, upto), val) == Times(CostSum(n, FirstRollLoop, upto, val), copies)
    decreases upto
  {
    if upto == 0 {
      TimesZero(copies);
    } else {
      ObjectiveTermsValue(n, copies, upto - 1, val);
      ObjectiveRowAdded(n, copies, upto, val);
    }
  }

  /** Adding row `upto` to the objective adds `copies` times the row's cost. */
  lemma ObjectiveRowAdded(n: nat, copies: nat, upto: nat, val: Var -> real)
    requires upto >= 1
    requires SumValue(ObjectiveTerms(n, copies, FirstRollLoop, upto - 1), val) == Times(CostSum(n, FirstRollLoop, upto - 1, val), copies)
    ensures SumValue(ObjectiveTerms(n, copies, FirstRollLoop, upto), val) == Times(CostSum(n, FirstRollLoop, upto, val), copies)
  {
    RowObjectiveValue(n, copies, upto, n, val);
    var loop, row := FirstRollLoop, SecondRollLoop(upto);
    var done, cell := ObjectiveTerms(n, copies, loop, upto - 1), ObjectiveTerms(n, copies, row, n);
    assert ObjectiveTerms(n, copies, loop, upto) == done + cell;
    assert CostSum(n, loop, upto, val) == CostSum(n, loop, upto - 1, val) + CostSum(n, row, n, val);
    SumValueAppend(done, cell, val);
    TimesAdd(CostSum(n, loop, upto - 1, val), CostSum(n, row, n, val), CostSum(n, loop, upto, val), copies);
  }

  /**
   * The objective counts every cost variable numBuckets + 1 times (its
   * bucket loop runs up to and including numBuckets), so its value is the
   * total cost times numBuckets + 1.
   */
  lemma ObjectiveIsScaledCostSum(n: nat, buckets: nat, val: Var -> real)
    ensures SumValue(ModelObjective(n, buckets), val) == CostSum(n, FirstRollLoop, n, val) * (buckets + 1) as real
  {
    ObjectiveTermsValue(n, buckets + 1, n, val);
    TimesIsProduct(CostSum(n, FirstRollLoop, n, val), buckets + 1);
  }

  /** The uniform factor does not change which valuation is better: the objective orders valuations as the total cost does. */
  lemma ObjectiveOrdersAsCostSum(n: nat, buckets: nat, val1: Var -> real, val2: Var -> real)
    ensures SumValue(ModelObjective(n, buckets), val1) <= SumValue(ModelObjective(n, buckets), val2)
            <==> CostSum(n, FirstRollLoop, n, val1) <= CostSum(n, FirstRollLoop, n, val2)
  {
    ObjectiveTermsValue(n, buckets + 1, n, val1);
    ObjectiveTermsValue(n, buckets + 1, n, val2);
    TimesOrder(CostSum(n, FirstRollLoop, n, val1), CostSum(n, FirstRollLoop, n, val2), buckets + 1);
  }

  lemma {:induction false} CostSumNonNegative(n: nat, largestPayoff: real, loop: HistoryLoop, upto: nat, val: Var -> real)
    requires AllSatisfied(CostDecls(n, largestPayoff, loop, upto), val)
    ensures CostSum(n, loop, upto, val) >= 0.0
    decreases Nesting(loop), upto
  {
    if upto > 0 {
      var done := CostDecls(n, largestPayoff, loop, upto - 1);
      match loop
      case FirstRollLoop =>
        AllSatisfiedAppend(done, CostDecls(n, largestPayoff, SecondRollLoop(upto), n), val);
        CostSumNonNegative(n, largestPayoff, loop, upto - 1, val);
        CostSumNonNegative(n, largestPayoff, SecondRollLoop(upto), n, val);
      case SecondRollLoop(f) =>
        AllSatisfiedAppend(done, [CostVarDecl(largestPayoff, f, upto)], val);
        CostSumNonNegative(n, largestPayoff, loop, upto - 1, val);
        assert Satisfied([CostVarDecl(largestPayoff, f, upto)][0], val);
    }
  }

  /** Every valuation satisfying the model has a nonnegative objective. */
  lemma ObjectiveNonNegative(n: nat, largestPayoff: real, buckets: nat, val: Var -> real)
    requires AllSatisfied(ModelRecords(n, largestPayoff, buckets), val)
    ensures SumValue(ModelObjective(n, buckets), val) >= 0.0
  {
    var costs := CostDecls(n, largestPayoff, FirstRollLoop, n);
    var partition := Partition(n, buckets, FirstRollLoop, n);
    AllSatisfiedAppend(costs + partition, Links(n, largestPayoff, buckets, FirstRoll1Loop, n), val);
    AllSatisfiedAppend(costs, partition, val);
    CostSumNonNegative(n, largestPayoff, FirstRollLoop, n, val);
    ObjectiveIsScaledCostSum(n, buckets, val);
  }

  /* ---------- a lossless abstraction ---------- */

  /** Puts history (f, s) into bucket f + s - 2, one bucket per roll sum, at no cost. */
  function SumBucketValuation(v: Var): real
  {
    match v
    case Assign(f, s, b) => if b == f + s - 2 then 1.0 else 0.0
    case _ => 0.0
  }

  lemma {:induction false} SumBucketCostDecls(n: nat, largestPayoff: real, loop: HistoryLoop, upto: nat)
    requires largestPayoff >= 0.0
    ensures AllSatisfied(CostDecls(n, largestPayoff, loop, upto), SumBucketValuation)
    ensures CostSum(n, loop, upto, SumBucketValuation) == 0.0
    decreases Nesting(loop), upto
  {
    if upto > 0 {
      var done := CostDecls(n, largestPayoff, loop, upto - 1);
      SumBucketCostDecls(n, largestPayoff, loop, upto - 1);
      match loop
      case FirstRollLoop =>
        SumBucketCostDecls(n, largestPayoff, SecondRollLoop(upto), n);
        AllSatisfiedAppend(done, CostDecls(n, largestPayoff, SecondRollLoop(upto), n), SumBucketValuation);
      case SecondRollLoop(f) =>
        AllSatisfiedAppend(done, [CostVarDecl(largestPayoff, f, upto)], SumBucketValuation);
    }
  }

  lemma {:induction false} SumBucketIndicators(f: int, s: int, upto: nat)
    ensures AllSatisfied(AssignDecls(f, s, upto), SumBucketValuation)
  {
    if upto > 0 {
      SumBucketIndicators(f, s, upto - 1);
      AllSatisfiedAppend(AssignDecls(f, s, upto - 1), [AssignDecl(f, s, upto - 1)], SumBucketValuation);
    }
  }

  /** A history whose roll sum has a bucket satisfies its indicators and its partition constraint. */
  lemma SumBucketCell(f: int, s: int, buckets: nat)
    requires 0 <= f + s - 2 < buckets
    ensures AllSatisfied(PartitionCell(f, s, buckets), SumBucketValuation)
  {
    var val := SumBucketValuation;
    SumBucketIndicators(f, s, buckets);
    assert ExactlyOneBucket(val, f, s, buckets) by {
      assert val(Assign(f, s, f + s - 2)) == 1.0;
      assert OnlySelected(val, f, s, buckets, f + s - 2);
    }
    PartitionConstraintMeansOneBucket(val, f, s, buckets);
    AllSatisfiedAppend(AssignDecls(f, s, buckets), [AddConstr(SumToOne(f, s, buckets))], val);
  }

  lemma {:induction false} SumBucketPartition(n: nat, buckets: nat, loop: HistoryLoop, upto: nat)
    requires buckets >= 2 * n - 1
    requires loop.FirstRollLoop? ==> upto <= n
    requires loop.SecondRollLoop? ==> 1 <= loop.firstRoll <= n && upto <= n
    ensures AllSatisfied(Partition(n, buckets, loop, upto), SumBucketValuation)
    decreases Nesting(loop), upto, 1
  {
    if upto > 0 {
      SumBucketPartition(n, buckets, loop, upto - 1);
      SumBucketPartitionStep(n, buckets, loop, upto);
    }
  }

  lemma {:induction false} SumBucketPartitionStep(n: nat, buckets: nat, loop: HistoryLoop, upto: nat)
    requires buckets >= 2 * n - 1
    requires loop.FirstRollLoop? ==> upto <= n
    requires loop.SecondRollLoop? ==> 1 <= loop.firstRoll <= n && upto <= n
    requires upto >= 1
    requires AllSatisfied(Partition(n, buckets, loop, upto - 1), SumBucketValuation)
    ensures AllSatisfied(Partition(n, buckets, loop, upto), SumBucketValuation)
    decreases Nesting(loop), upto, 0
  {
    var done := Partition(n, buckets, loop, upto - 1);
    match loop
    case FirstRollLoop =>
      assert Partition(n, buckets, loop, upto) == done + Partition(n, buckets, SecondRollLoop(upto), n);
      SumBucketPartition(n, buckets, SecondRollLoop(upto), n);
      AllSatisfiedAppend(done, Partition(n, buckets, SecondRollLoop(upto), n), SumBucketValuation);
    case SecondRollLoop(f) =>
      assert Partition(n, buckets, loop, upto) == done + PartitionCell(f, upto, buckets);
      SumBucketCell(f, upto, buckets);
      AllSatisfiedAppend(done, PartitionCell(f, upto, buckets), SumBucketValuation);
  }

  lemma SumBucketPairLinks(n: nat, largestPayoff: real, f1: int, f2: int, s1: int, s2: int, b: int)
    requires largestPayoff >= 0.0
    ensures AllSatisfied(PairLinks(n, largestPayoff, f1, f2, s1, s2, b), SumBucketValuation)
  {
    var val := SumBucketValuation;
    var cost := MergeCost(n, largestPayoff, f1, f2, s1, s2);
    MergeCostBounds(n, largestPayoff, f1, f2, s1, s2);
    LinkValue(val, cost, f1, f2, s1, s2, b, f1, s1);
    LinkValue(val, cost, f1, f2, s1, s2, b, f2, s2);
    if val(Assign(f1, s1, b)) == 1.0 && val(Assign(f2, s2, b)) == 1.0 {
      assert f1 + s1 == f2 + s2;
      assert cost == 0.0;
    }
  }

  lemma {:induction false} SumBucketLinks(n: nat, largestPayoff: real, buckets: nat, loop: LinkLoop, upto: nat)
    requires largestPayoff >= 0.0
    ensures AllSatisfied(Links(n, largestPayoff, buckets, loop, upto), SumBucketValuation)
    decreases Depth(loop), upto
  {
    if upto > 0 {
      var val := SumBucketValuation;
      var done := Links(n, largestPayoff, buckets, loop, upto - 1);
      SumBucketLinks(n, largestPayoff, buckets, loop, upto - 1);
      match loop
      case FirstRoll1Loop =>
        SumBucketLinks(n, largestPayoff, buckets, FirstRoll2Loop(upto), n);
        AllSatisfiedAppend(done, Links(n, largestPayoff, buckets, FirstRoll2Loop(upto), n), val);
      case FirstRoll2Loop(f1) =>
        SumBucketLinks(n, largestPayoff, buckets, SecondRoll1Loop(f1, upto), n);
        AllSatisfiedAppend(done, Links(n, largestPayoff, buckets, SecondRoll1Loop(f1, upto), n), val);
      case SecondRoll1Loop(f1, f2) =>
        SumBucketLinks(n, largestPayoff, buckets, SecondRoll2Loop(f1, f2, upto), n);
        AllSatisfiedAppend(done, Links(n, largestPayoff, buckets, SecondRoll2Loop(f1, f2, upto), n), val);
      case SecondRoll2Loop(f1, f2, s1) =>
        SumBucketLinks(n, largestPayoff, buckets, BucketLoop(f1, f2, s1, upto), buckets);
        AllSatisfiedAppend(done, Links(n, largestPayoff, buckets, BucketLoop(f1, f2, s1, upto), buckets), val);
      case BucketLoop(f1, f2, s1, s2) =>
        SumBucketPairLinks(n, largestPayoff, f1, f2, s1, s2, upto - 1);
        AllSatisfiedAppend(done, PairLinks(n, largestPayoff, f1, f2, s1, s2, upto - 1), val);
    }
  }

  /**
   * With at least one bucket per roll sum (2 * numSides - 1 buckets) and a
   * nonnegative largest payoff, the abstraction that groups histories by
   * roll sum satisfies every record of the model at objective 0, the least
   * value any satisfying valuation can reach: merging histories of equal
   * sum is lossless.
   */
  lemma LosslessAbstractionIsOptimal(n: nat, largestPayoff: real, buckets: nat)
    requires buckets >= 2 * n - 1 && largestPayoff >= 0.0
    ensures AllSatisfied(ModelRecords(n, largestPayoff, buckets), SumBucketValuation)
    ensures SumValue(ModelObjective(n, buckets), SumBucketValuation) == 0.0
  {
    var val := SumBucketValuation;
    var costs := CostDecls(n, largestPayoff, FirstRollLoop, n);
    var partition := Partition(n, buckets, FirstRollLoop, n);
    SumBucketCostDecls(n, largestPayoff, FirstRollLoop, n);
    SumBucketPartition(n, buckets, FirstRollLoop, n);
    SumBucketLinks(n, largestPayoff, buckets, FirstRoll1Loop, n);
    AllSatisfiedAppend(costs, partition, val);
    AllSatisfiedAppend(costs + partition, Links(n, largestPayoff, buckets, FirstRoll1Loop, n), val);
    ObjectiveIsScaledCostSum(n, buckets, val);
  }
}
