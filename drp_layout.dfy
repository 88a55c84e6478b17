/**
 * Layout of the die-roll poker bucket-assignment model: which records the
 * builder emits, and how often.
 */
module DieRollPokerLayout {
  import opened ConstraintLog
  import opened CostEstimator
  import opened DieRollPoker

  /** Whether the first `upto` iterations of `loop` visit history (f, s). */
  predicate Visits(n: nat, loop: HistoryLoop, upto: nat, f: int, s: int)
  {
    match loop
    case FirstRollLoop => 1 <= f <= upto && 1 <= s <= n
    case SecondRollLoop(g) => f == g && 1 <= s <= upto
  }

  /* ---------- shapes of the record groups ---------- */

  /** Every record declares a cost variable. */
  predicate AllCostVars(rs: seq<Record>)
  {
    forall i :: 0 <= i < |rs| ==> rs[i].AddVar? && rs[i].v.Cost?
  }

  /** Every record is a `<=` constraint. */
  predicate AllLe(rs: seq<Record>)
  {
    forall i :: 0 <= i < |rs| ==> rs[i].AddConstr? && rs[i].c.sense == Le
  }

  lemma AllCostVarsAppend(a: seq<Record>, b: seq<Record>)
    requires AllCostVars(a) && AllCostVars(b)
    ensures AllCostVars(a + b)
  {
    forall i | 0 <= i < |a + b|
      ensures (a + b)[i].AddVar? && (a + b)[i].v.Cost?
    {
      if i >= |a| {
        assert (a + b)[i] == b[i - |a|];
      }
    }
  }

  lemma AllLeAppend(a: seq<Record>, b: seq<Record>)
    requires AllLe(a) && AllLe(b)
    ensures AllLe(a + b)
  {
    forall i | 0 <= i < |a + b|
      ensures (a + b)[i].AddConstr? && (a + b)[i].c.sense == Le
    {
      if i >= |a| {
        assert (a + b)[i] == b[i - |a|];
      }
    }
  }

  lemma {:induction false} CostDeclsShape(n: nat, largestPayoff: real, loop: HistoryLoop, upto: nat)
    ensures AllCostVars(CostDecls(n, largestPayoff, loop, upto))
    decreases Nesting(loop), upto
  {
    if upto > 0 {
      var done := CostDecls(n, largestPayoff, loop, upto - 1);
      CostDeclsShape(n, largestPayoff, loop, upto - 1);
      match loop
      case FirstRollLoop =>
        CostDeclsShape(n, largestPayoff, SecondRollLoop(upto), n);
        AllCostVarsAppend(done, CostDecls(n, largestPayoff, SecondRollLoop(upto), n));
      case SecondRollLoop(f) =>
        AllCostVarsAppend(done, [CostVarDecl(largestPayoff, f, upto)]);
    }
  }

  lemma {:induction false} LinksShape(n: nat, largestPayoff: real, buckets: nat, loop: LinkLoop, upto: nat)
    ensures AllLe(Links(n, largestPayoff, buckets, loop, upto))
    decreases Depth(loop), upto
  {
    if upto > 0 {
      var done := Links(n, largestPayoff, buckets, loop, upto - 1);
      LinksShape(n, largestPayoff, buckets, loop, upto - 1);
      match loop
      case FirstRoll1Loop =>
        LinksShape(n, largestPayoff, buckets, FirstRoll2Loop(upto), n);
        AllLeAppend(done, Links(n, largestPayoff, buckets, FirstRoll2Loop(upto), n));
      case FirstRoll2Loop(f1) =>
        LinksShape(n, largestPayoff, buckets, SecondRoll1Loop(f1, upto), n);
        AllLeAppend(done, Links(n, largestPayoff, buckets, SecondRoll1Loop(f1, upto), n));
      case SecondRoll1Loop(f1, f2) =>
        LinksShape(n, largestPayoff, buckets, SecondRoll2Loop(f1, f2, upto), n);
        AllLeAppend(done, Links(n, largestPayoff, buckets, SecondRoll2Loop(f1, f2, upto), n));
      case SecondRoll2Loop(f1, f2, s1) =>
        LinksShape(n, largestPayoff, buckets, BucketLoop(f1, f2, s1, upto), buckets);
        AllLeAppend(done, Links(n, largestPayoff, buckets, BucketLoop(f1, f2, s1, upto), buckets));
      case BucketLoop(f1, f2, s1, s2) =>
        AllLeAppend(done, PairLinks(n, largestPayoff, f1, f2, s1, s2, upto - 1));
    }
  }

  /** A record that is no cost declaration and no `<=` constraint occurs in the model only inside the partition. */
  lemma ModelCountIsPartitionCount(n: nat, largestPayoff: real, buckets: nat, r: Record)
    requires !(r.AddVar? && r.v.Cost?)
    requires !(r.AddConstr? && r.c.sense == Le)
    ensures Count(ModelRecords(n, largestPayoff, buckets), r) == Count(Partition(n, buckets, FirstRollLoop, n), r)
  {
    var costs := CostDecls(n, largestPayoff, FirstRollLoop, n);
    var partition := Partition(n, buckets, FirstRollLoop, n);
    var links := Links(n, largestPayoff, buckets, FirstRoll1Loop, n);
    CostDeclsShape(n, largestPayoff, FirstRollLoop, n);
    LinksShape(n, largestPayoff, buckets, FirstRoll1Loop, n);
    CountPositive(costs, r);
    CountPositive(links, r);
    CountAppend(costs, partition, r);
    CountAppend(costs + partition, links, r);
  }

  /* ---------- cost variables ---------- */

  /** The first `upto` iterations of `loop` declare Cost(f;s) once if they visit (f, s), and otherwise not at all. */
  predicate CostCounted(n: nat, largestPayoff: real, loop: HistoryLoop, upto: nat, f: int, s: int)
  {
    Count(CostDecls(n, largestPayoff, loop, upto), CostVarDecl(largestPayoff, f, s))
    == if Visits(n, loop, upto, f, s) then 1 else 0
  }

  lemma {:induction false} CostDeclsCount(n: nat, largestPayoff: real, loop: HistoryLoop, upto: nat, f: int, s: int)
    ensures CostCounted(n, largestPayoff, loop, upto, f, s)
    decreases Nesting(loop), upto, 1
  {
    if upto == 0 {
      CostDeclsCountEmpty(n, largestPayoff, loop, f, s);
    } else {
      CostDeclsCount(n, largestPayoff, loop, upto - 1, f, s);
      CostDeclsCountStep(n, largestPayoff, loop, upto, f, s);
    }
  }

  lemma CostDeclsCountEmpty(n: nat, largestPayoff: real, loop: HistoryLoop, f: int, s: int)
    ensures CostCounted(n, largestPayoff, loop, 0, f, s)
  {
    assert CostDecls(n, largestPayoff, loop, 0) == [];
  }

  /** The last iteration of `loop` declares Cost(f;s) once exactly when it visits (f, s). */
  lemma {:induction false} CostDeclsCountStep(n: nat, largestPayoff: real, loop: HistoryLoop, upto: nat, f: int, s: int)
    requires upto >= 1
    requires CostCounted(n, largestPayoff, loop, upto - 1, f, s)
    ensures CostCounted(n, largestPayoff, loop, upto, f, s)
    decreases Nesting(loop), upto, 0
  {
    var done := CostDecls(n, largestPayoff, loop, upto - 1);
    match loop
    case FirstRollLoop =>
      CostDeclsCount(n, largestPayoff, SecondRollLoop(upto), n, f, s);
      CountAppend(done, CostDecls(n, largestPayoff, SecondRollLoop(upto), n), CostVarDecl(largestPayoff, f, s));
    case SecondRollLoop(g) =>
      CountSingleton(CostVarDecl(largestPayoff, g, upto), CostVarDecl(largestPayoff, f, s));
      CountAppend(done, [CostVarDecl(largestPayoff, g, upto)], CostVarDecl(largestPayoff, f, s));
  }

  /**
   * Each history (f, s) with rolls in 1..numSides gets exactly one cost
   * variable with bounds [0, 2 * largestPayoff]; no other history gets one.
   */
  lemma CostVarDeclaredOnce(n: nat, largestPayoff: real, buckets: nat, f: int, s: int)
    ensures Count(ModelRecords(n, largestPayoff, buckets), CostVarDecl(largestPayoff, f, s))
            == if 1 <= f <= n && 1 <= s <= n then 1 else 0
  {
    var r := CostVarDecl(largestPayoff, f, s);
    var costs := CostDecls(n, largestPayoff, FirstRollLoop, n);
    var partition := Partition(n, buckets, FirstRollLoop, n);
    var links := Links(n, largestPayoff, buckets, FirstRoll1Loop, n);
    CostDeclsCount(n, largestPayoff, FirstRollLoop, n, f, s);
    PartitionCount(n, buckets, FirstRollLoop, n, CostVarOf(largestPayoff), f, s);
    LinksShape(n, largestPayoff, buckets, FirstRoll1Loop, n);
    CountPositive(links, r);
    CountAppend(costs, partition, r);
    CountAppend(costs + partition, links, r);
  }

  /* ---------- the partition ---------- */

  /** A record sought in the partition, for history (f, s). */
  datatype Probe = IndicatorOf(b: int) | PartitionConstraintOf | CostVarOf(largestPayoff: real)

  function ProbeRecord(p: Probe, buckets: nat, f: int, s: int): Record
  {
    match p
    case IndicatorOf(b) => AssignDecl(f, s, b)
    case PartitionConstraintOf => AddConstr(SumToOne(f, s, buckets))
    case CostVarOf(largestPayoff) => CostVarDecl(largestPayoff, f, s)
  }

  /** How often the probed record occurs in the cell of its own history. */
  function CellMultiplicity(p: Probe, buckets: nat): nat
  {
    match p
    case IndicatorOf(b) => if 0 <= b < buckets then 1 else 0
    case PartitionConstraintOf => 1
    case CostVarOf(_) => 0
  }

  /** The indicators of history (g, t) declare B(f;s;b) once when it is one of them, and never otherwise. */
  lemma {:induction false} AssignDeclsCount(g: int, t: int, upto: nat, r: Record, f: int, s: int, b: int)
    requires r == AssignDecl(f, s, b) || !(r.AddVar? && r.v.Assign?)
    ensures Count(AssignDecls(g, t, upto), r) == if r == AssignDecl(f, s, b) && g == f && t == s && 0 <= b < upto then 1 else 0
  {
    if upto > 0 {
      AssignDeclsCount(g, t, upto - 1, r, f, s, b);
      CountSingleton(AssignDecl(g, t, upto - 1), r);
      CountAppend(AssignDecls(g, t, upto - 1), [AssignDecl(g, t, upto - 1)], r);
    }
  }

  /** With at least one bucket, the partition constraint names its history through its last term. */
  lemma SumToOneInjective(f: int, s: int, g: int, t: int, buckets: nat)
    requires buckets >= 1
    ensures SumToOne(f, s, buckets) == SumToOne(g, t, buckets) <==> f == g && s == t
  {
    if SumToOne(f, s, buckets) == SumToOne(g, t, buckets) {
      var a, x := AssignTerms(f, s, buckets - 1), Term(1.0, Assign(f, s, buckets - 1));
      var b, y := AssignTerms(g, t, buckets - 1), Term(1.0, Assign(g, t, buckets - 1));
      assert a + [x] == b + [y];
      assert (a + [x])[|a|] == x && (b + [y])[|b|] == y;
    }
  }

  /** The probed record of history (f, s) occurs in the cell of (g, t) only when (g, t) is (f, s). */
  lemma CellCount(p: Probe, buckets: nat, g: int, t: int, f: int, s: int)
    requires p.PartitionConstraintOf? ==> buckets >= 1
    ensures Count(PartitionCell(g, t, buckets), ProbeRecord(p, buckets, f, s))
            == if g == f && t == s then CellMultiplicity(p, buckets) else 0
  {
    var r := ProbeRecord(p, buckets, f, s);
    match p
    case IndicatorOf(b) =>
      AssignDeclsCount(g, t, buckets, r, f, s, b);
    case PartitionConstraintOf =>
      AssignDeclsCount(g, t, buckets, r, f, s, 0);
      SumToOneInjective(f, s, g, t, buckets);
    case CostVarOf(_) =>
      AssignDeclsCount(g, t, buckets, r, f, s, 0);
    CountSingleton(AddConstr(SumToOne(g, t, buckets)), r);
    CountAppend(AssignDecls(g, t, buckets), [AddConstr(SumToOne(g, t, buckets))], r);
  }

  /** The first `upto` iterations of `loop` hold the probed record of (f, s) once per visit of (f, s), as often as its cell does. */
  predicate PartitionCounted(n: nat, buckets: nat, loop: HistoryLoop, upto: nat, p: Probe, f: int, s: int)
  {
    Count(Partition(n, buckets, loop, upto), ProbeRecord(p, buckets, f, s))
    == if Visits(n, loop, upto, f, s) then CellMultiplicity(p, buckets) else 0
  }

  lemma {:induction false} PartitionCount(n: nat, buckets: nat, loop: HistoryLoop, upto: nat, p: Probe, f: int, s: int)
    requires p.PartitionConstraintOf? ==> buckets >= 1
    ensures PartitionCounted(n, buckets, loop, upto, p, f, s)
    decreases Nesting(loop), upto, 1
  {
    if upto == 0 {
      PartitionCountEmpty(n, buckets, loop, p, f, s);
    } else {
      PartitionCount(n, buckets, loop, upto - 1, p, f, s);
      PartitionCountStep(n, buckets, loop, upto, p, f, s);
    }
  }

  lemma PartitionCountEmpty(n: nat, buckets: nat, loop: HistoryLoop, p: Probe, f: int, s: int)
    ensures PartitionCounted(n, buckets, loop, 0, p, f, s)
  {
    assert Partition(n, buckets, loop, 0) == [];
  }

  lemma {:induction false} PartitionCountStep(n: nat, buckets: nat, loop: HistoryLoop, upto: nat, p: Probe, f: int, s: int)
    requires p.PartitionConstraintOf? ==> buckets >= 1
    requires upto >= 1
    requires PartitionCounted(n, buckets, loop, upto - 1, p, f, s)
    ensures PartitionCounted(n, buckets, loop, upto, p, f, s)
    decreases Nesting(loop), upto, 0
  {
    var r := ProbeRecord(p, buckets, f, s);
    var done := Partition(n, buckets, loop, upto - 1);
    match loop
    case FirstRollLoop =>
      PartitionCount(n, buckets, SecondRollLoop(upto), n, p, f, s);
      CountAppend(done, Partition(n, buckets, SecondRollLoop(upto), n), r);
    case SecondRollLoop(g) =>
      CellCount(p, buckets, g, upto, f, s);
      CountAppend(done, PartitionCell(g, upto, buckets), r);
  }

  /**
   * Each history (f, s) with rolls in 1..numSides gets exactly one binary
   * indicator per bucket 0..numBuckets-1; no indicator is declared for
   * anything else.
   */
  lemma IndicatorDeclaredOnce(n: nat, largestPayoff: real, buckets: nat, f: int, s: int, b: int)
    ensures Count(ModelRecords(n, largestPayoff, buckets), AssignDecl(f, s, b))
            == if 1 <= f <= n && 1 <= s <= n && 0 <= b < buckets then 1 else 0
  {
    ModelCountIsPartitionCount(n, largestPayoff, buckets, AssignDecl(f, s, b));
    PartitionCount(n, buckets, FirstRollLoop, n, IndicatorOf(b), f, s);
  }

  /** Each history with rolls in 1..numSides gets exactly one sum-to-one constraint; no other history gets one. */
  lemma PartitionConstraintOnce(n: nat, largestPayoff: real, buckets: nat, f: int, s: int)
    requires buckets >= 1
    ensures Count(ModelRecords(n, largestPayoff, buckets), AddConstr(SumToOne(f, s, buckets)))
            == if 1 <= f <= n && 1 <= s <= n then 1 else 0
  {
    var r := AddConstr(SumToOne(f, s, buckets));
    ModelCountIsPartitionCount(n, largestPayoff, buckets, r);
    PartitionCount(n, buckets, FirstRollLoop, n, PartitionConstraintOf, f, s);
  }
}
