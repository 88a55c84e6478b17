/**
 * The bucket-assignment model of die-roll poker's signal abstraction.
 * Each player rolls a private die twice; a history (first roll, second roll)
 * with rolls in 1..numSides is assigned to exactly one of
 * numAbstractionInformationSets buckets, and a cost variable per history is
 * forced up to the merge cost whenever two histories share a bucket.
 * The objective sums the cost variables.
 */
module DieRollPoker {
  import opened ConstraintLog
  import opened CostEstimator

  /* ---------- loops over histories ---------- */

  /**
   * One of the two loops over histories, rows 1..numSides and within them
   * columns 1..numSides: the loop over first rolls, or the loop over
   * second rolls with the first roll fixed.
   */
  datatype HistoryLoop = FirstRollLoop | SecondRollLoop(firstRoll: int)

  /** How many loops lie inside `loop`. */
  function Nesting(loop: HistoryLoop): nat
  {
    if loop.FirstRollLoop? then 1 else 0
  }

  /* ---------- cost variables ---------- */

  /** Cost(first;second), bounded by [0, 2 * largestPayoff]. */
  function CostVarDecl(largestPayoff: real, f: int, s: int): Record
  {
    AddVar(Cost(f, s), 0.0, 2.0 * largestPayoff, Continuous)
  }

  /** The cost variables declared by the first `upto` iterations of `loop`, in order. */
  function CostDecls(n: nat, largestPayoff: real, loop: HistoryLoop, upto: nat): seq<Record>
    decreases Nesting(loop), upto
  {
    if upto == 0 then []
    else
      CostDecls(n, largestPayoff, loop, upto - 1) +
      match loop
      case FirstRollLoop => CostDecls(n, largestPayoff, SecondRollLoop(upto), n)
      case SecondRollLoop(f) => [CostVarDecl(largestPayoff, f, upto)]
  }

  /* ---------- bucket indicators and the partition constraint ---------- */

  function AssignDecl(f: int, s: int, b: int): Record
  {
    AddVar(Assign(f, s, b), 0.0, 1.0, Binary)
  }

  /** Indicators of history (f, s) for buckets 0..upto-1. */
  function AssignDecls(f: int, s: int, upto: nat): seq<Record>
  {
    if upto == 0 then [] else AssignDecls(f, s, upto - 1) + [AssignDecl(f, s, upto - 1)]
  }

  /** The terms 1 * B(f;s;b) for buckets b in 0..upto-1. */
  function AssignTerms(f: int, s: int, upto: nat): seq<Term>
  {
    if upto == 0 then [] else AssignTerms(f, s, upto - 1) + [Term(1.0, Assign(f, s, upto - 1))]
  }

  /** Sum over all buckets of the indicators of (f, s) equals 1. */
  function SumToOne(f: int, s: int, buckets: nat): Constraint
  {
    Constraint(LinExpr(AssignTerms(f, s, buckets), 0.0), Eq, ConstExpr(1.0))
  }

  /** What the builder records for one history: its indicators, then its partition constraint. */
  function PartitionCell(f: int, s: int, buckets: nat): seq<Record>
  {
    AssignDecls(f, s, buckets) + [AddConstr(SumToOne(f, s, buckets))]
  }

  /** The indicators and partition constraints recorded by the first `upto` iterations of `loop`, in order. */
  function Partition(n: nat, buckets: nat, loop: HistoryLoop, upto: nat): seq<Record>
    decreases Nesting(loop), upto
  {
    if upto == 0 then []
    else
      Partition(n, buckets, loop, upto - 1) +
      match loop
      case FirstRollLoop => Partition(n, buckets, SecondRollLoop(upto), n)
      case SecondRollLoop(f) => PartitionCell(f, upto, buckets)
  }

  /* ---------- pairwise cost constraints ---------- */

  /** cost * B(f1;s1;b) + cost * B(f2;s2;b) - cost. */
  function LinkExpr(cost: real, f1: int, f2: int, s1: int, s2: int, b: int): LinExpr
  {
    LinExpr([Term(cost, Assign(f1, s1, b)), Term(cost, Assign(f2, s2, b))], -cost)
  }

  /** `LinkExpr <= Cost(f;s)`. */
  function Link(cost: real, f1: int, f2: int, s1: int, s2: int, b: int, f: int, s: int): Constraint
  {
    Constraint(LinkExpr(cost, f1, f2, s1, s2, b), Le, VarExpr(Cost(f, s)))
  }

  /** The two constraints for histories (f1, s1), (f2, s2) and bucket b. */
  function PairLinks(n: nat, largestPayoff: real, f1: int, f2: int, s1: int, s2: int, b: int): seq<Record>
  {
    var cost := MergeCost(n, largestPayoff, f1, f2, s1, s2);
    [AddConstr(Link(cost, f1, f2, s1, s2, b, f1, s1)), AddConstr(Link(cost, f1, f2, s1, s2, b, f2, s2))]
  }

  /**
   * One loop of the pairwise-constraint builder, with the indices fixed by
   * the loops around it: first roll 1, first roll 2, second roll 1,
   * second roll 2, bucket, from the outside in.
   */
  datatype LinkLoop =
    | FirstRoll1Loop
    | FirstRoll2Loop(f1: int)
    | SecondRoll1Loop(f1: int, f2: int)
    | SecondRoll2Loop(f1: int, f2: int, s1: int)
    | BucketLoop(f1: int, f2: int, s1: int, s2: int)

  /** How many loops lie inside `loop`. */
  function Depth(loop: LinkLoop): nat
  {
    match loop
    case FirstRoll1Loop => 4
    case FirstRoll2Loop(_) => 3
    case SecondRoll1Loop(_, _) => 2
    case SecondRoll2Loop(_, _, _) => 1
    case BucketLoop(_, _, _, _) => 0
  }

  /** The records emitted by the first `upto` iterations of `loop`, in order. */
  function Links(n: nat, largestPayoff: real, buckets: nat, loop: LinkLoop, upto: nat): seq<Record>
    decreases Depth(loop), upto
  {
    if upto == 0 then []
    else
      Links(n, largestPayoff, buckets, loop, upto - 1) +
      match loop
      case FirstRoll1Loop => Links(n, largestPayoff, buckets, FirstRoll2Loop(upto), n)
      case FirstRoll2Loop(f1) => Links(n, largestPayoff, buckets, SecondRoll1Loop(f1, upto), n)
      case SecondRoll1Loop(f1, f2) => Links(n, largestPayoff, buckets, SecondRoll2Loop(f1, f2, upto), n)
      case SecondRoll2Loop(f1, f2, s1) => Links(n, largestPayoff, buckets, BucketLoop(f1, f2, s1, upto), buckets)
      case BucketLoop(f1, f2, s1, s2) => PairLinks(n, largestPayoff, f1, f2, s1, s2, upto - 1)
  }

  /* ---------- objective ---------- */

  /** `k` copies of the cost variable Cost(f;s), each an objective term with coefficient 1. */
  function CostTerms(f: int, s: int, k: nat): seq<Var>
  {
    if k == 0 then [] else CostTerms(f, s, k - 1) + [Cost(f, s)]
  }

  /** The objective terms added by the first `upto` iterations of `loop`; `copies` terms per history. */
  function ObjectiveTerms(n: nat, copies: nat, loop: HistoryLoop, upto: nat): seq<Var>
    decreases Nesting(loop), upto
  {
    if upto == 0 then []
    else
      ObjectiveTerms(n, copies, loop, upto - 1) +
      match loop
      case FirstRollLoop => ObjectiveTerms(n, copies, SecondRollLoop(upto), n)
      case SecondRollLoop(f) => CostTerms(f, upto, copies)
  }

  /** Sum of the cost variables of the histories visited by the first `upto` iterations of `loop`. */
  function CostSum(n: nat, loop: HistoryLoop, upto: nat, val: Var -> real): real
    decreases Nesting(loop), upto
  {
    if upto == 0 then 0.0
    else
      CostSum(n, loop, upto - 1, val) +
      match loop
      case FirstRollLoop => CostSum(n, SecondRollLoop(upto), n, val)
      case SecondRollLoop(f) => val(Cost(f, upto))
  }

  /** Everything the builder records, in order. */
  function ModelRecords(n: nat, largestPayoff: real, buckets: nat): seq<Record>
  {
    CostDecls(n, largestPayoff, FirstRollLoop, n) + Partition(n, buckets, FirstRollLoop, n) + Links(n, largestPayoff, buckets, FirstRoll1Loop, n)
  }

  /** The objective as built: each cost variable buckets + 1 times. */
  function ModelObjective(n: nat, buckets: nat): seq<Var>
  {
    ObjectiveTerms(n, buckets + 1, FirstRollLoop, n)
  }

  /* ---------- reading the abstraction off a solution ---------- */

  /** The 0-based signal indices (first roll - 1, second roll - 1) of a history. */
  datatype Signals = Signals(first: int, second: int)

  /** One call addAbstraction(canonical, member): `member` is played as `canonical`. */
  datatype Merge = Merge(canonical: Signals, member: Signals)

  /** Whether the solved indicator B(f;s;b) counts as set: its value exceeds 1 - epsilon. */
  predicate InBucket(val: Var -> real, epsilon: real, f: int, s: int, b: int)
  {
    val(Assign(f, s, b)) > 1.0 - epsilon
  }

  /** The histories put into bucket `b` by the first `upto` iterations of `loop`, in visiting order. */
  function BucketMembers(n: nat, val: Var -> real, epsilon: real, b: int, loop: HistoryLoop, upto: nat): seq<Signals>
    decreases Nesting(loop), upto
  {
    if upto == 0 then []
    else
      BucketMembers(n, val, epsilon, b, loop, upto - 1) +
      match loop
      case FirstRollLoop => BucketMembers(n, val, epsilon, b, SecondRollLoop(upto), n)
      case SecondRollLoop(f) => if InBucket(val, epsilon, f, upto, b) then [Signals(f - 1, upto - 1)] else []
  }

  /** The member list of every bucket 0..buckets-1. */
  function BucketLists(n: nat, val: Var -> real, epsilon: real, buckets: nat): (lists: seq<seq<Signals>>)
    ensures |lists| == buckets
  {
    seq(buckets, b => BucketMembers(n, val, epsilon, b, FirstRollLoop, n))
  }

  /** Maps each of the first `upto` members of a bucket to the bucket's first member. */
  function MergesOf(members: seq<Signals>, upto: nat): seq<Merge>
    requires upto <= |members|
  {
    if upto == 0 then [] else MergesOf(members, upto - 1) + [Merge(members[0], members[upto - 1])]
  }

  /** The merges recorded for the first `upto` buckets; an empty bucket records none. */
  function Merges(lists: seq<seq<Signals>>, upto: nat): seq<Merge>
    requires upto <= |lists|
  {
    if upto == 0 then []
    else Merges(lists, upto - 1) + (if |lists[upto - 1]| > 0 then MergesOf(lists[upto - 1], |lists[upto - 1]|) else [])
  }

  /* ---------- the builder ---------- */

  class DieRollPokerAbstractor {
    const numSides: nat
    const numAbstractionInformationSets: nat
    const largestPayoff: real
    /** The records the builder has sent to the solver model, in order. */
    var log: seq<Record>
    /** The objective to be minimised: every term has coefficient 1, so it is kept as the list of its variables. */
    var objective: seq<Var>

    /** Builds the whole model: cost variables, partition, pairwise cost constraints, objective. */
    constructor (largestPayoff: real, numSides: nat, numAbstractInformationSets: nat)
      ensures this.numSides == numSides && this.numAbstractionInformationSets == numAbstractInformationSets
      ensures this.largestPayoff == largestPayoff
      ensures log == ModelRecords(numSides, largestPayoff, numAbstractInformationSets)
      ensures objective == ModelObjective(numSides, numAbstractInformationSets)
    {
      this.numSides := numSides;
      this.numAbstractionInformationSets := numAbstractInformationSets;
      this.largestPayoff := largestPayoff;
      log := [];
      objective := [];
      new;
      ghost var costs := CostDecls(numSides, largestPayoff, FirstRollLoop, numSides);
      ghost var partition := Partition(numSides, numAbstractInformationSets, FirstRollLoop, numSides);
      ghost var links := Links(numSides, largestPayoff, numAbstractInformationSets, FirstRoll1Loop, numSides);
      InitializeDataStructures();
      assert log == costs;
      CreateSecondRollAbstractionVars();
      assert log == costs + partition;
      AddObjectiveCostSecondRoll();
      assert log == costs + partition + links;
      AddCostsToObjective();
    }

    /** Creates the cost variable of every history, in row-major order. */
    method InitializeDataStructures()
      modifies this`log
      ensures log == old(log) + CostDecls(numSides, largestPayoff, FirstRollLoop, numSides)
    {
      var firstRoll := 1;
      while firstRoll <= numSides
        invariant 1 <= firstRoll <= numSides + 1
        invariant log == old(log) + CostDecls(numSides, largestPayoff, FirstRollLoop, firstRoll - 1)
      {
        ghost var log1 := log;
        ghost var rowsDone := CostDecls(numSides, largestPayoff, FirstRollLoop, firstRoll - 1);
        var secondRoll := 1;
        while secondRoll <= numSides
          invariant 1 <= secondRoll <= numSides + 1
          invariant log == log1 + CostDecls(numSides, largestPayoff, SecondRollLoop(firstRoll), secondRoll - 1)
        {
          ghost var cellsDone := CostDecls(numSides, largestPayoff, SecondRollLoop(firstRoll), secondRoll - 1);
          log := log + [CostVarDecl(largestPayoff, firstRoll, secondRoll)];
          assert CostDecls(numSides, largestPayoff, SecondRollLoop(firstRoll), secondRoll) == cellsDone + [CostVarDecl(largestPayoff, firstRoll, secondRoll)];
          AppendAssoc(log1, cellsDone, [CostVarDecl(largestPayoff, firstRoll, secondRoll)]);
          secondRoll := secondRoll + 1;
        }
        assert CostDecls(numSides, largestPayoff, FirstRollLoop, firstRoll) == rowsDone + CostDecls(numSides, largestPayoff, SecondRollLoop(firstRoll), numSides);
        AppendAssoc(old(log), rowsDone, CostDecls(numSides, largestPayoff, SecondRollLoop(firstRoll), numSides));
        firstRoll := firstRoll + 1;
      }
    }

    /** Creates the bucket indicators of every history and constrains them to sum to one. */
    method CreateSecondRollAbstractionVars()
      modifies this`log
      ensures log == old(log) + Partition(numSides, numAbstractionInformationSets, FirstRollLoop, numSides)
    {
      var n, buckets := numSides, numAbstractionInformationSets;
      var firstRoll := 1;
      while firstRoll <= n
        invariant 1 <= firstRoll <= n + 1
        invariant log == old(log) + Partition(n, buckets, FirstRollLoop, firstRoll - 1)
      {
        ghost var log1 := log;
        ghost var rowsDone := Partition(n, buckets, FirstRollLoop, firstRoll - 1);
        var secondRoll := 1;
        while secondRoll <= n
          invariant 1 <= secondRoll <= n + 1
          invariant log == log1 + Partition(n, buckets, SecondRollLoop(firstRoll), secondRoll - 1)
        {
          ghost var cellsDone := Partition(n, buckets, SecondRollLoop(firstRoll), secondRoll - 1);
          CreateHistoryAbstractionVars(firstRoll, secondRoll);
          assert Partition(n, buckets, SecondRollLoop(firstRoll), secondRoll) == cellsDone + PartitionCell(firstRoll, secondRoll, buckets);
          AppendAssoc(log1, cellsDone, PartitionCell(firstRoll, secondRoll, buckets));
          secondRoll := secondRoll + 1;
        }
        assert Partition(n, buckets, FirstRollLoop, firstRoll) == rowsDone + Partition(n, buckets, SecondRollLoop(firstRoll), n);
        AppendAssoc(old(log), rowsDone, Partition(n, buckets, SecondRollLoop(firstRoll), n));
        firstRoll := firstRoll + 1;
      }
    }

    /** The bucket loop of CreateSecondRollAbstractionVars: the indicators of one history and their sum-to-one constraint. */
    method CreateHistoryAbstractionVars(firstRoll: int, secondRoll: int)
      modifies this`log
      ensures log == old(log) + PartitionCell(firstRoll, secondRoll, numAbstractionInformationSets)
    {
      var buckets := numAbstractionInformationSets;
      var expr: seq<Term> := [];
      var bucket := 0;
      while bucket < buckets
        invariant 0 <= bucket <= buckets
        invariant expr == AssignTerms(firstRoll, secondRoll, bucket)
        invariant log == old(log) + AssignDecls(firstRoll, secondRoll, bucket)
      {
        AppendAssoc(old(log), AssignDecls(firstRoll, secondRoll, bucket), [AssignDecl(firstRoll, secondRoll, bucket)]);
        log := log + [AssignDecl(firstRoll, secondRoll, bucket)];
        expr := expr + [Term(1.0, Assign(firstRoll, secondRoll, bucket))];
        bucket := bucket + 1;
      }
      log := log + [AddConstr(Constraint(LinExpr(expr, 0.0), Eq, ConstExpr(1.0)))];
      AppendAssoc(old(log), AssignDecls(firstRoll, secondRoll, buckets), [AddConstr(SumToOne(firstRoll, secondRoll, buckets))]);
    }

    /**
     * For every ordered pair of histories and every bucket, constrains both
     * histories' cost variables from below by cost * (x1 + x2 - 1).
     * The five nested loops (first roll 1, first roll 2, second roll 1,
     * second roll 2, bucket) are written here as five methods of one loop each.
     */
    method AddObjectiveCostSecondRoll()
      modifies this`log
      ensures log == old(log) + Links(numSides, largestPayoff, numAbstractionInformationSets, FirstRoll1Loop, numSides)
    {
      var n, buckets := numSides, numAbstractionInformationSets;
      var firstRoll1 := 1;
      while firstRoll1 <= n
        invariant 1 <= firstRoll1 <= n + 1
        invariant log == old(log) + Links(n, largestPayoff, buckets, FirstRoll1Loop, firstRoll1 - 1)
      {
        ghost var done := Links(n, largestPayoff, buckets, FirstRoll1Loop, firstRoll1 - 1);
        AddCostConstraintsForFirstRoll(firstRoll1);
        assert Links(n, largestPayoff, buckets, FirstRoll1Loop, firstRoll1) == done + Links(n, largestPayoff, buckets, FirstRoll2Loop(firstRoll1), n);
        AppendAssoc(old(log), done, Links(n, largestPayoff, buckets, FirstRoll2Loop(firstRoll1), n));
        firstRoll1 := firstRoll1 + 1;
      }
    }

    /** The loop over the second history's first roll, the first history's first roll fixed. */
    method AddCostConstraintsForFirstRoll(firstRoll1: int)
      requires 1 <= firstRoll1 <= numSides
      modifies this`log
      ensures log == old(log) + Links(numSides, largestPayoff, numAbstractionInformationSets, FirstRoll2Loop(firstRoll1), numSides)
    {
      var n, buckets := numSides, numAbstractionInformationSets;
      var firstRoll2 := 1;
      while firstRoll2 <= n
        invariant 1 <= firstRoll2 <= n + 1
        invariant log == old(log) + Links(n, largestPayoff, buckets, FirstRoll2Loop(firstRoll1), firstRoll2 - 1)
      {
        ghost var done := Links(n, largestPayoff, buckets, FirstRoll2Loop(firstRoll1), firstRoll2 - 1);
        AddCostConstraintsForFirstRolls(firstRoll1, firstRoll2);
        assert Links(n, largestPayoff, buckets, FirstRoll2Loop(firstRoll1), firstRoll2) == done + Links(n, largestPayoff, buckets, SecondRoll1Loop(firstRoll1, firstRoll2), n);
        AppendAssoc(old(log), done, Links(n, largestPayoff, buckets, SecondRoll1Loop(firstRoll1, firstRoll2), n));
        firstRoll2 := firstRoll2 + 1;
      }
    }

    /** The loop over the first history's second roll, both first rolls fixed. */
    method AddCostConstraintsForFirstRolls(firstRoll1: int, firstRoll2: int)
      requires 1 <= firstRoll1 <= numSides && 1 <= firstRoll2 <= numSides
      modifies this`log
      ensures log == old(log) + Links(numSides, largestPayoff, numAbstractionInformationSets, SecondRoll1Loop(firstRoll1, firstRoll2), numSides)
    {
      var n, buckets := numSides, numAbstractionInformationSets;
      var secondRoll1 := 1;
      while secondRoll1 <= n
        invariant 1 <= secondRoll1 <= n + 1
        invariant log == old(log) + Links(n, largestPayoff, buckets, SecondRoll1Loop(firstRoll1, firstRoll2), secondRoll1 - 1)
      {
        ghost var done := Links(n, largestPayoff, buckets, SecondRoll1Loop(firstRoll1, firstRoll2), secondRoll1 - 1);
        AddCostConstraintsForSecondRoll(firstRoll1, firstRoll2, secondRoll1);
        assert Links(n, largestPayoff, buckets, SecondRoll1Loop(firstRoll1, firstRoll2), secondRoll1) == done + Links(n, largestPayoff, buckets, SecondRoll2Loop(firstRoll1, firstRoll2, secondRoll1), n);
        AppendAssoc(old(log), done, Links(n, largestPayoff, buckets, SecondRoll2Loop(firstRoll1, firstRoll2, secondRoll1), n));
        secondRoll1 := secondRoll1 + 1;
      }
    }

    /** The loop over the second history's second roll, the first history fixed. */
    method AddCostConstraintsForSecondRoll(firstRoll1: int, firstRoll2: int, secondRoll1: int)
      requires 1 <= firstRoll1 <= numSides && 1 <= firstRoll2 <= numSides && 1 <= secondRoll1 <= numSides
      modifies this`log
      ensures log == old(log) + Links(numSides, largestPayoff, numAbstractionInformationSets, SecondRoll2Loop(firstRoll1, firstRoll2, secondRoll1), numSides)
    {
      var n, buckets := numSides, numAbstractionInformationSets;
      var secondRoll2 := 1;
      while secondRoll2 <= n
        invariant 1 <= secondRoll2 <= n + 1
        invariant log == old(log) + Links(n, largestPayoff, buckets, SecondRoll2Loop(firstRoll1, firstRoll2, secondRoll1), secondRoll2 - 1)
      {
        ghost var done := Links(n, largestPayoff, buckets, SecondRoll2Loop(firstRoll1, firstRoll2, secondRoll1), secondRoll2 - 1);
        AddCostConstraintsForHistories(firstRoll1, firstRoll2, secondRoll1, secondRoll2);
        assert Links(n, largestPayoff, buckets, SecondRoll2Loop(firstRoll1, firstRoll2, secondRoll1), secondRoll2) == done + Links(n, largestPayoff, buckets, BucketLoop(firstRoll1, firstRoll2, secondRoll1, secondRoll2), buckets);
        AppendAssoc(old(log), done, Links(n, largestPayoff, buckets, BucketLoop(firstRoll1, firstRoll2, secondRoll1, secondRoll2), buckets));
        secondRoll2 := secondRoll2 + 1;
      }
    }

    /** The bucket loop of AddObjectiveCostSecondRoll, both histories fixed. */
    method AddCostConstraintsForHistories(firstRoll1: int, firstRoll2: int, secondRoll1: int, secondRoll2: int)
      requires 1 <= firstRoll1 <= numSides && 1 <= firstRoll2 <= numSides
      requires 1 <= secondRoll1 <= numSides && 1 <= secondRoll2 <= numSides
      modifies this`log
      ensures log == old(log) + Links(numSides, largestPayoff, numAbstractionInformationSets, BucketLoop(firstRoll1, firstRoll2, secondRoll1, secondRoll2), numAbstractionInformationSets)
    {
      var bucket := 0;
      while bucket < numAbstractionInformationSets
        invariant 0 <= bucket <= numAbstractionInformationSets
        invariant log == old(log) + Links(numSides, largestPayoff, numAbstractionInformationSets, BucketLoop(firstRoll1, firstRoll2, secondRoll1, secondRoll2), bucket)
      {
        ghost var log5 := log;
        var cost := ComputeMergeCost(numSides, largestPayoff, firstRoll1, firstRoll2, secondRoll1, secondRoll2);
        var expr := LinExpr([Term(cost, Assign(firstRoll1, secondRoll1, bucket)),
                             Term(cost, Assign(firstRoll2, secondRoll2, bucket))], -cost);
        log := log + [AddConstr(Constraint(expr, Le, VarExpr(Cost(firstRoll1, secondRoll1))))];
        log := log + [AddConstr(Constraint(expr, Le, VarExpr(Cost(firstRoll2, secondRoll2))))];
        ghost var links := PairLinks(numSides, largestPayoff, firstRoll1, firstRoll2, secondRoll1, secondRoll2, bucket);
        assert log == log5 + links;
        AppendAssoc(old(log), Links(numSides, largestPayoff, numAbstractionInformationSets, BucketLoop(firstRoll1, firstRoll2, secondRoll1, secondRoll2), bucket), links);
        bucket := bucket + 1;
      }
    }

    /**
     * Adds every history's cost variable to the objective once per
     * iteration of a bucket loop that runs from 0 up to and including
     * numAbstractionInformationSets, so numAbstractionInformationSets + 1 times.
     */
    method AddCostsToObjective()
      modifies this`objective
      ensures objective == old(objective) + ObjectiveTerms(numSides, numAbstractionInformationSets + 1, FirstRollLoop, numSides)
    {
      var n, copies := numSides, numAbstractionInformationSets + 1;
      var firstRoll := 1;
      while firstRoll <= n
        invariant 1 <= firstRoll <= n + 1
        invariant objective == old(objective) + ObjectiveTerms(n, copies, FirstRollLoop, firstRoll - 1)
      {
        ghost var obj1 := objective;
        ghost var rowsDone := ObjectiveTerms(n, copies, FirstRollLoop, firstRoll - 1);
        var secondRoll := 1;
        while secondRoll <= n
          invariant 1 <= secondRoll <= n + 1
          invariant objective == obj1 + ObjectiveTerms(n, copies, SecondRollLoop(firstRoll), secondRoll - 1)
        {
          ghost var cellsDone := ObjectiveTerms(n, copies, SecondRollLoop(firstRoll), secondRoll - 1);
          AddCostCopies(firstRoll, secondRoll);
          assert ObjectiveTerms(n, copies, SecondRollLoop(firstRoll), secondRoll) == cellsDone + CostTerms(firstRoll, secondRoll, copies);
          AppendAssoc(obj1, cellsDone, CostTerms(firstRoll, secondRoll, copies));
          secondRoll := secondRoll + 1;
        }
        assert ObjectiveTerms(n, copies, FirstRollLoop, firstRoll) == rowsDone + ObjectiveTerms(n, copies, SecondRollLoop(firstRoll), n);
        AppendAssoc(old(objective), rowsDone, ObjectiveTerms(n, copies, SecondRollLoop(firstRoll), n));
        firstRoll := firstRoll + 1;
      }
    }

    /** The bucket loop of AddCostsToObjective, the history fixed. */
    method AddCostCopies(firstRoll: int, secondRoll: int)
      modifies this`objective
      ensures objective == old(objective) + CostTerms(firstRoll, secondRoll, numAbstractionInformationSets + 1)
    {
      var bucket := 0;
      while bucket <= numAbstractionInformationSets
        invariant 0 <= bucket <= numAbstractionInformationSets + 1
        invariant objective == old(objective) + CostTerms(firstRoll, secondRoll, bucket)
      {
        AppendAssoc(old(objective), CostTerms(firstRoll, secondRoll, bucket), [Cost(firstRoll, secondRoll)]);
        objective := objective + [Cost(firstRoll, secondRoll)];
        bucket := bucket + 1;
      }
    }

    /**
     * Reads the abstraction off solved indicator values `val`: lists each
     * bucket's histories in row-major order, then maps every member of a
     * nonempty bucket to the bucket's first member.
     */
    method GetAbstraction(val: Var -> real, epsilon: real) returns (abstraction: seq<Merge>)
      ensures abstraction == Merges(BucketLists(numSides, val, epsilon, numAbstractionInformationSets), numAbstractionInformationSets)
    {
      var n, numBuckets := numSides, numAbstractionInformationSets;
      var buckets := new seq<Signals>[numBuckets];
      var bucket := 0;
      while bucket < numBuckets
        invariant 0 <= bucket <= numBuckets
        invariant forall c :: 0 <= c < bucket ==> buckets[c] == BucketMembers(n, val, epsilon, c, FirstRollLoop, n)
      {
        buckets[bucket] := CollectBucket(val, epsilon, bucket);
        bucket := bucket + 1;
      }
      assert buckets[..] == BucketLists(n, val, epsilon, numBuckets);
      abstraction := MapToFirstMembers(buckets);
    }

    /** Maps every member of each nonempty bucket to the bucket's first member, bucket by bucket. */
    method MapToFirstMembers(buckets: array<seq<Signals>>) returns (abstraction: seq<Merge>)
      ensures abstraction == Merges(buckets[..], buckets.Length)
    {
      abstraction := [];
      var bucket := 0;
      while bucket < buckets.Length
        invariant 0 <= bucket <= buckets.Length
        invariant abstraction == Merges(buckets[..], bucket)
      {
        var members := buckets[bucket];
        assert members == buckets[..][bucket];
        if |members| > 0 {
          var merges := MapBucketToFirstMember(members);
          abstraction := abstraction + merges;
        }
        bucket := bucket + 1;
      }
    }

    /** One `(members[0] -> member)` entry per member of a non-empty bucket, in bucket order. */
    static method MapBucketToFirstMember(members: seq<Signals>) returns (merges: seq<Merge>)
      requires |members| > 0
      ensures merges == MergesOf(members, |members|)
    {
      merges := [];
      var i := 0;
      while i < |members|
        invariant 0 <= i <= |members|
        invariant merges == MergesOf(members, i)
      {
        merges := merges + [Merge(members[0], members[i])];
        i := i + 1;
      }
    }

    /** The histories whose indicator for `bucket` is set, in row-major order. */
    method CollectBucket(val: Var -> real, epsilon: real, bucket: int) returns (members: seq<Signals>)
      ensures members == BucketMembers(numSides, val, epsilon, bucket, FirstRollLoop, numSides)
    {
      var n := numSides;
      members := [];
      var firstRoll := 1;
      while firstRoll <= n
        invariant 1 <= firstRoll <= n + 1
        invariant members == BucketMembers(n, val, epsilon, bucket, FirstRollLoop, firstRoll - 1)
      {
        ghost var rowsDone := members;
        var secondRoll := 1;
        while secondRoll <= n
          invariant 1 <= secondRoll <= n + 1
          invariant members == rowsDone + BucketMembers(n, val, epsilon, bucket, SecondRollLoop(firstRoll), secondRoll - 1)
        {
          ghost var cellsDone := BucketMembers(n, val, epsilon, bucket, SecondRollLoop(firstRoll), secondRoll - 1);
          ghost var cell := if InBucket(val, epsilon, firstRoll, secondRoll, bucket) then [Signals(firstRoll - 1, secondRoll - 1)] else [];
          if val(Assign(firstRoll, secondRoll, bucket)) > 1.0 - epsilon {
            members := members + [Signals(firstRoll - 1, secondRoll - 1)];
          }
          assert BucketMembers(n, val, epsilon, bucket, SecondRollLoop(firstRoll), secondRoll) == cellsDone + cell;
          AppendAssoc(rowsDone, cellsDone, cell);
          secondRoll := secondRoll + 1;
        }
        assert BucketMembers(n, val, epsilon, bucket, FirstRollLoop, firstRoll) == rowsDone + BucketMembers(n, val, epsilon, bucket, SecondRollLoop(firstRoll), n);
        firstRoll := firstRoll + 1;
      }
    }
  }
}
