/**
 * Reading the abstraction off a solution of the die-roll poker model:
 * which histories each bucket list holds and in what order, which merges
 * are recorded, and that a solution of the model yields an abstraction
 * mapping every history to exactly one canonical history.
 */
module DieRollPokerExtraction {
  import opened ConstraintLog
  import opened DieRollPoker
  import opened DieRollPokerLayout
  import opened DieRollPokerSemantics

  /* ---------- the bucket lists ---------- */

  /** Whether bucket `b`'s indicator of the history with signal indices `sig` is set. */
  predicate Selected(n: nat, val: Var -> real, epsilon: real, b: int, sig: Signals)
  {
    0 <= sig.first < n && 0 <= sig.second < n && InBucket(val, epsilon, sig.first + 1, sig.second + 1, b)
  }

  /** Row f of a bucket list holds exactly the histories (f, s), s <= upto, whose indicator is set. */
  lemma {:induction false} RowMembers(n: nat, val: Var -> real, epsilon: real, b: int, f: int, upto: nat, sig: Signals)
    ensures sig in BucketMembers(n, val, epsilon, b, SecondRollLoop(f), upto)
            <==> sig.first == f - 1 && 0 <= sig.second < upto && InBucket(val, epsilon, f, sig.second + 1, b)
  {
    if upto > 0 {
      RowMembers(n, val, epsilon, b, f, upto - 1, sig);
      assert BucketMembers(n, val, epsilon, b, SecondRollLoop(f), upto)
          == BucketMembers(n, val, epsilon, b, SecondRollLoop(f), upto - 1)
             + (if InBucket(val, epsilon, f, upto, b) then [Signals(f - 1, upto - 1)] else []);
    }
  }

  /** The first `upto` rows of a bucket list hold exactly the selected histories with first roll <= upto. */
  lemma {:induction false} RowsMembers(n: nat, val: Var -> real, epsilon: real, b: int, upto: nat, sig: Signals)
    requires upto <= n
    ensures sig in BucketMembers(n, val, epsilon, b, FirstRollLoop, upto)
            <==> sig.first < upto && Selected(n, val, epsilon, b, sig)
    decreases upto, 1
  {
    if upto > 0 {
      RowsMembersStep(n, val, epsilon, b, upto, sig);
    }
  }

  lemma RowsMembersStep(n: nat, val: Var -> real, epsilon: real, b: int, upto: nat, sig: Signals)
    requires 1 <= upto <= n
    ensures sig in BucketMembers(n, val, epsilon, b, FirstRollLoop, upto)
            <==> sig.first < upto && Selected(n, val, epsilon, b, sig)
    decreases upto, 0
  {
    var done, row := BucketMembers(n, val, epsilon, b, FirstRollLoop, upto - 1), BucketMembers(n, val, epsilon, b, SecondRollLoop(upto), n);
    RowsMembers(n, val, epsilon, b, upto - 1, sig);
    RowMembers(n, val, epsilon, b, upto, n, sig);
    assert BucketMembers(n, val, epsilon, b, FirstRollLoop, upto) == done + row;
    InAppend(done, row, sig);
  }

  /**
   * Bucket b's list holds a history exactly when both its rolls are in
   * 1..numSides and its solved indicator for b exceeds 1 - epsilon.
   */
  lemma BucketListMembers(n: nat, val: Var -> real, epsilon: real, buckets: nat, b: nat, sig: Signals)
    requires b < buckets
    ensures sig in BucketLists(n, val, epsilon, buckets)[b] <==> Selected(n, val, epsilon, b, sig)
  {
    RowsMembers(n, val, epsilon, b, n, sig);
  }

  /** `x` comes before `y` in row-major order. */
  predicate Precedes(x: Signals, y: Signals)
  {
    x.first < y.first || (x.first == y.first && x.second < y.second)
  }

  /** The list is strictly increasing in row-major order (so it has no repeated history). */
  predicate RowMajor(ms: seq<Signals>)
  {
    forall i, j :: 0 <= i < j < |ms| ==> Precedes(ms[i], ms[j])
  }

  lemma RowMajorAppend(a: seq<Signals>, b: seq<Signals>)
    requires RowMajor(a) && RowMajor(b)
    requires forall x, y :: x in a && y in b ==> Precedes(x, y)
    ensures RowMajor(a + b)
  {
    forall i, j | 0 <= i < j < |a + b|
      ensures Precedes((a + b)[i], (a + b)[j])
    {
      if j < |a| {
        assert (a + b)[i] == a[i] && (a + b)[j] == a[j];
      } else if i < |a| {
        assert (a + b)[i] in a && (a + b)[j] in b;
      } else {
        assert (a + b)[i] == b[i - |a|] && (a + b)[j] == b[j - |a|];
      }
    }
  }

  lemma {:induction false} RowInRowMajorOrder(n: nat, val: Var -> real, epsilon: real, b: int, f: int, upto: nat)
    ensures RowMajor(BucketMembers(n, val, epsilon, b, SecondRollLoop(f), upto))
  {
    if upto > 0 {
      var done := BucketMembers(n, val, epsilon, b, SecondRollLoop(f), upto - 1);
      var cell := if InBucket(val, epsilon, f, upto, b) then [Signals(f - 1, upto - 1)] else [];
      RowInRowMajorOrder(n, val, epsilon, b, f, upto - 1);
      assert BucketMembers(n, val, epsilon, b, SecondRollLoop(f), upto) == done + cell;
      forall x, y | x in done && y in cell
        ensures Precedes(x, y)
      {
        RowMembers(n, val, epsilon, b, f, upto - 1, x);
      }
      RowMajorAppend(done, cell);
    }
  }

  lemma {:induction false} RowsInRowMajorOrder(n: nat, val: Var -> real, epsilon: real, b: int, upto: nat)
    requires upto <= n
    ensures RowMajor(BucketMembers(n, val, epsilon, b, FirstRollLoop, upto))
    decreases upto, 1
  {
    if upto > 0 {
      RowsInRowMajorOrderStep(n, val, epsilon, b, upto);
    }
  }

  lemma RowsInRowMajorOrderStep(n: nat, val: Var -> real, epsilon: real, b: int, upto: nat)
    requires 1 <= upto <= n
    ensures RowMajor(BucketMembers(n, val, epsilon, b, FirstRollLoop, upto))
    decreases upto, 0
  {
    var done := BucketMembers(n, val, epsilon, b, FirstRollLoop, upto - 1);
    var row := BucketMembers(n, val, epsilon, b, SecondRollLoop(upto), n);
    RowsInRowMajorOrder(n, val, epsilon, b, upto - 1);
    RowInRowMajorOrder(n, val, epsilon, b, upto, n);
    forall x, y | x in done && y in row
      ensures Precedes(x, y)
    {
      RowsMembers(n, val, epsilon, b, upto - 1, x);
      RowMembers(n, val, epsilon, b, upto, n, y);
    }
    RowMajorAppend(done, row);
    assert BucketMembers(n, val, epsilon, b, FirstRollLoop, upto) == done + row;
  }

  /** Every bucket list is in row-major order, so its first member is its least history. */
  lemma BucketListRowMajor(n: nat, val: Var -> real, epsilon: real, buckets: nat, b: nat)
    requires b < buckets
    ensures RowMajor(BucketLists(n, val, epsilon, buckets)[b])
  {
    RowsInRowMajorOrder(n, val, epsilon, b, n);
  }

  /* ---------- the recorded merges ---------- */

  /** The merges of one bucket map each of its first `upto` members to its first member. */
  lemma {:induction false} MergesOfMembers(members: seq<Signals>, upto: nat, m: Merge)
    requires upto <= |members|
    ensures m in MergesOf(members, upto) <==> upto > 0 && m.canonical == members[0] && m.member in members[..upto]
  {
    if upto > 0 {
      MergesOfMembers(members, upto - 1, m);
      assert members[..upto] == members[..upto - 1] + [members[upto - 1]];
    }
  }

  /** Whether `m` maps a member of a nonempty list among the first `upto` to that list's first member. */
  predicate MergedBy(lists: seq<seq<Signals>>, upto: nat, m: Merge)
    requires upto <= |lists|
  {
    exists b :: 0 <= b < upto && |lists[b]| > 0 && m.canonical == lists[b][0] && m.member in lists[b]
  }

  /** The merges recorded for the first `upto` lists are exactly those mapping a member to its list's first member. */
  lemma {:induction false} MergesMembers(lists: seq<seq<Signals>>, upto: nat, m: Merge)
    requires upto <= |lists|
    ensures m in Merges(lists, upto) <==> MergedBy(lists, upto, m)
    decreases upto, 1
  {
    if upto > 0 {
      MergesAdded(lists, upto, m);
    }
  }

  lemma MergesAdded(lists: seq<seq<Signals>>, upto: nat, m: Merge)
    requires 1 <= upto <= |lists|
    ensures m in Merges(lists, upto) <==> MergedBy(lists, upto, m)
    decreases upto, 0
  {
    MergesMembers(lists, upto - 1, m);
    MergedByStep(lists, upto, m);
    var l := lists[upto - 1];
    var added := if |l| > 0 then MergesOf(l, |l|) else [];
    assert Merges(lists, upto) == Merges(lists, upto - 1) + added;
    if |l| > 0 {
      MergesOfMembers(l, |l|, m);
      assert l[..|l|] == l;
    }
  }

  /** A merge is made by the first `upto` lists exactly when the first `upto - 1` make it or the last one does. */
  lemma MergedByStep(lists: seq<seq<Signals>>, upto: nat, m: Merge)
    requires 1 <= upto <= |lists|
    ensures var l := lists[upto - 1];
      MergedBy(lists, upto, m) <==> MergedBy(lists, upto - 1, m) || (|l| > 0 && m.canonical == l[0] && m.member in l)
  {
    if MergedBy(lists, upto, m) {
      var b :| 0 <= b < upto && |lists[b]| > 0 && m.canonical == lists[b][0] && m.member in lists[b];
      if b < upto - 1 {
        assert MergedBy(lists, upto - 1, m);
      }
    }
    if MergedBy(lists, upto - 1, m) {
      var b :| 0 <= b < upto - 1 && |lists[b]| > 0 && m.canonical == lists[b][0] && m.member in lists[b];
      assert MergedBy(lists, upto, m);
    }
    var l := lists[upto - 1];
    if |l| > 0 && m.canonical == l[0] && m.member in l {
      assert 0 <= upto - 1 < upto && |lists[upto - 1]| > 0 && m.canonical == lists[upto - 1][0] && m.member in lists[upto - 1];
    }
  }

  /* ---------- abstractions read off a solution ---------- */

  lemma {:induction false} AssignDeclsContain(f: int, s: int, upto: nat, b: int)
    requires 0 <= b < upto
    ensures AssignDecl(f, s, b) in AssignDecls(f, s, upto)
  {
    if b < upto - 1 {
      AssignDeclsContain(f, s, upto - 1, b);
    }
  }

  /** The indicators and the partition constraint of a history are among its records. */
  lemma ProbeInCell(p: Probe, buckets: nat, f: int, s: int)
    requires p.IndicatorOf? ==> 0 <= p.b < buckets
    requires !p.CostVarOf?
    ensures ProbeRecord(p, buckets, f, s) in PartitionCell(f, s, buckets)
  {
    if p.IndicatorOf? {
      AssignDeclsContain(f, s, buckets, p.b);
    }
  }

  /** What the first k iterations of a loop record is a prefix of what the first `upto` record, k <= upto. */
  lemma {:induction false} PartitionPrefix(n: nat, buckets: nat, loop: HistoryLoop, k: nat, upto: nat)
    requires k <= upto
    ensures Partition(n, buckets, loop, k) <= Partition(n, buckets, loop, upto)
  {
    if k < upto {
      var done := Partition(n, buckets, loop, upto - 1);
      PartitionPrefix(n, buckets, loop, k, upto - 1);
      assert done <= Partition(n, buckets, loop, upto);
      PrefixTransitive(Partition(n, buckets, loop, k), done, Partition(n, buckets, loop, upto));
    }
  }

  /** The records of history (f, s) lie in what the first s iterations of row f record. */
  lemma CellInRowPrefix(n: nat, buckets: nat, f: int, s: int, p: Probe)
    requires 1 <= s
    requires p.IndicatorOf? ==> 0 <= p.b < buckets
    requires !p.CostVarOf?
    ensures ProbeRecord(p, buckets, f, s) in Partition(n, buckets, SecondRollLoop(f), s)
  {
    var done, cell := Partition(n, buckets, SecondRollLoop(f), s - 1), PartitionCell(f, s, buckets);
    assert Partition(n, buckets, SecondRollLoop(f), s) == done + cell;
    ProbeInCell(p, buckets, f, s);
    InRight(done, cell, ProbeRecord(p, buckets, f, s));
  }

  /** The records of history (f, s) lie in what the whole row of first roll f records. */
  lemma CellInRow(n: nat, buckets: nat, f: int, s: int, p: Probe)
    requires 1 <= s <= n
    requires p.IndicatorOf? ==> 0 <= p.b < buckets
    requires !p.CostVarOf?
    ensures ProbeRecord(p, buckets, f, s) in Partition(n, buckets, SecondRollLoop(f), n)
  {
    CellInRowPrefix(n, buckets, f, s, p);
    PartitionPrefix(n, buckets, SecondRollLoop(f), s, n);
    InPrefix(Partition(n, buckets, SecondRollLoop(f), s), Partition(n, buckets, SecondRollLoop(f), n), ProbeRecord(p, buckets, f, s));
  }

  /** The records of history (f, s) lie in the partition the builder records. */
  lemma CellInPartition(n: nat, buckets: nat, f: int, s: int, p: Probe)
    requires 1 <= f <= n && 1 <= s <= n
    requires p.IndicatorOf? ==> 0 <= p.b < buckets
    requires !p.CostVarOf?
    ensures ProbeRecord(p, buckets, f, s) in Partition(n, buckets, FirstRollLoop, n)
  {
    var r := ProbeRecord(p, buckets, f, s);
    var done, row := Partition(n, buckets, FirstRollLoop, f - 1), Partition(n, buckets, SecondRollLoop(f), n);
    CellInRow(n, buckets, f, s, p);
    assert Partition(n, buckets, FirstRollLoop, f) == done + row;
    InRight(done, row, r);
    PartitionPrefix(n, buckets, FirstRollLoop, f, n);
    InPrefix(Partition(n, buckets, FirstRollLoop, f), Partition(n, buckets, FirstRollLoop, n), r);
  }

  /** A history's indicators and partition constraint lie in the whole model. */
  lemma CellInModel(n: nat, largestPayoff: real, buckets: nat, f: int, s: int, p: Probe)
    requires 1 <= f <= n && 1 <= s <= n
    requires p.IndicatorOf? ==> 0 <= p.b < buckets
    requires !p.CostVarOf?
    ensures ProbeRecord(p, buckets, f, s) in ModelRecords(n, largestPayoff, buckets)
  {
    var r := ProbeRecord(p, buckets, f, s);
    var costs, partition, links := CostDecls(n, largestPayoff, FirstRollLoop, n), Partition(n, buckets, FirstRollLoop, n), Links(n, largestPayoff, buckets, FirstRoll1Loop, n);
    CellInPartition(n, buckets, f, s, p);
    InRight(costs, partition, r);
    InLeft(costs + partition, links, r);
  }

  /** In any solution of the model, every history's indicators are 0/1 and exactly one of them is 1. */
  lemma SolvedHistoryHasOneBucket(n: nat, largestPayoff: real, buckets: nat, val: Var -> real, f: int, s: int)
    requires AllSatisfied(ModelRecords(n, largestPayoff, buckets), val)
    requires 1 <= f <= n && 1 <= s <= n
    ensures BinaryIndicators(val, f, s, buckets)
    ensures ExactlyOneBucket(val, f, s, buckets)
  {
    var rs := ModelRecords(n, largestPayoff, buckets);
    forall b | 0 <= b < buckets
      ensures val(Assign(f, s, b)) == 0.0 || val(Assign(f, s, b)) == 1.0
    {
      CellInModel(n, largestPayoff, buckets, f, s, IndicatorOf(b));
      SatisfiedMember(rs, AssignDecl(f, s, b), val);
    }
    CellInModel(n, largestPayoff, buckets, f, s, PartitionConstraintOf);
    SatisfiedMember(rs, AddConstr(SumToOne(f, s, buckets)), val);
    PartitionConstraintMeansOneBucket(val, f, s, buckets);
  }

  /** For a 0/1 value, exceeding 1 - epsilon with 0 < epsilon <= 1 means being 1. */
  lemma ThresholdReadsBinary(x: real, epsilon: real)
    requires x == 0.0 || x == 1.0
    requires 0.0 < epsilon <= 1.0
    ensures x > 1.0 - epsilon <==> x == 1.0
  {
  }

  /**
   * In any solution of the model, and for 0 < epsilon <= 1, each history
   * lies in exactly one bucket list.
   */
  lemma SolvedHistoryListedOnce(n: nat, largestPayoff: real, buckets: nat, val: Var -> real, epsilon: real, f: int, s: int)
    requires AllSatisfied(ModelRecords(n, largestPayoff, buckets), val)
    requires 0.0 < epsilon <= 1.0
    requires 1 <= f <= n && 1 <= s <= n
    ensures var lists := BucketLists(n, val, epsilon, buckets);
            exists b :: 0 <= b < buckets && Signals(f - 1, s - 1) in lists[b] &&
              forall c :: 0 <= c < buckets && c != b ==> Signals(f - 1, s - 1) !in lists[c]
  {
    var lists, sig := BucketLists(n, val, epsilon, buckets), Signals(f - 1, s - 1);
    SolvedHistoryHasOneBucket(n, largestPayoff, buckets, val, f, s);
    var b :| 0 <= b < buckets && val(Assign(f, s, b)) == 1.0 && OnlySelected(val, f, s, buckets, b);
    BucketListMembers(n, val, epsilon, buckets, b, sig);
    forall c | 0 <= c < buckets && c != b
      ensures sig !in lists[c]
    {
      ThresholdReadsBinary(val(Assign(f, s, c)), epsilon);
      BucketListMembers(n, val, epsilon, buckets, c, sig);
    }
  }

  /** A bucket's first member is itself merged into the bucket's first member, so canonical histories map to themselves. */
  lemma CanonicalMapsToItself(lists: seq<seq<Signals>>, m: Merge)
    requires m in Merges(lists, |lists|)
    ensures Merge(m.canonical, m.canonical) in Merges(lists, |lists|)
  {
    MergesMembers(lists, |lists|, m);
    var b :| 0 <= b < |lists| && |lists[b]| > 0 && m.canonical == lists[b][0] && m.member in lists[b];
    assert MergedBy(lists, |lists|, Merge(m.canonical, m.canonical));
    MergesMembers(lists, |lists|, Merge(m.canonical, m.canonical));
  }

  /**
   * What the abstraction read off a solution records: `m` exactly when some
   * bucket selects m.member and m.canonical is that bucket's first member.
   */
  lemma AbstractionMerges(n: nat, val: Var -> real, epsilon: real, buckets: nat, m: Merge)
    ensures var lists := BucketLists(n, val, epsilon, buckets);
            m in Merges(lists, buckets)
            <==> exists b :: 0 <= b < buckets && Selected(n, val, epsilon, b, m.member) && |lists[b]| > 0 && m.canonical == lists[b][0]
  {
    var lists := BucketLists(n, val, epsilon, buckets);
    MergesMembers(lists, buckets, m);
    forall b | 0 <= b < buckets
      ensures m.member in lists[b] <==> Selected(n, val, epsilon, b, m.member)
    {
      BucketListMembers(n, val, epsilon, buckets, b, m.member);
    }
  }

  /**
   * In any solution of the model, and for 0 < epsilon <= 1, the abstraction
   * maps every history with rolls in 1..numSides to exactly one canonical history.
   */
  lemma SolvedAbstractionMapsEveryHistoryOnce(n: nat, largestPayoff: real, buckets: nat, val: Var -> real, epsilon: real, f: int, s: int)
    requires AllSatisfied(ModelRecords(n, largestPayoff, buckets), val)
    requires 0.0 < epsilon <= 1.0
    requires 1 <= f <= n && 1 <= s <= n
    ensures var merges := Merges(BucketLists(n, val, epsilon, buckets), buckets);
            exists m :: m in merges && m.member == Signals(f - 1, s - 1)
    ensures var merges := Merges(BucketLists(n, val, epsilon, buckets), buckets);
            forall m1, m2 :: m1 in merges && m2 in merges && m1.member == Signals(f - 1, s - 1) && m2.member == Signals(f - 1, s - 1)
              ==> m1.canonical == m2.canonical
  {
    var lists, sig := BucketLists(n, val, epsilon, buckets), Signals(f - 1, s - 1);
    var merges := Merges(lists, buckets);
    SolvedHistoryListedOnce(n, largestPayoff, buckets, val, epsilon, f, s);
    var b :| 0 <= b < buckets && sig in lists[b] &&
      forall c :: 0 <= c < buckets && c != b ==> sig !in lists[c];
    var m := Merge(lists[b][0], sig);
    assert MergedBy(lists, buckets, m);
    MergesMembers(lists, buckets, m);
    forall m1, m2 | m1 in merges && m2 in merges && m1.member == sig && m2.member == sig
      ensures m1.canonical == m2.canonical
    {
      MergesMembers(lists, buckets, m1);
      MergesMembers(lists, buckets, m2);
    }
  }
}
