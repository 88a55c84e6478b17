/**
 * The optimisation model that both builders assemble, with the MIP/LP engine
 * replaced by an append-only log of records over symbolic variables.
 * A valuation (what a solver would report after a solve) gives meaning to
 * the records: a constraint holds or not under it.
 */
module ConstraintLog {

  /** Symbolic names of the engine variables the builders create or refer to. */
  datatype Var =
    | Assign(first: int, second: int, bucket: int)  // B(first;second;bucket), a bucket indicator
    | Cost(first: int, second: int)                   // Cost(first;second), the cost of a history
    | Deact(dualSeq: int)                             // D<seq>, deactivation of a dual sequence
    | LookAheadChoice(dualSeq: int)                   // T<seq>, look-ahead choice of a dual sequence
    | Strategy(seqId: int)                            // sequence-form strategy variable of the base model
    | Aux(id: nat)                                    // an anonymous variable created on the fly

  datatype VarKind = Binary | Continuous

  /** One term `coef * var` of a linear expression. */
  datatype Term = Term(coef: real, v: Var)

  /** A linear expression: a sum of terms plus a constant. */
  datatype LinExpr = LinExpr(terms: seq<Term>, constant: real)

  datatype Sense = Le | Ge | Eq

  /** `lhs sense rhs`. */
  datatype Constraint = Constraint(lhs: LinExpr, sense: Sense, rhs: LinExpr)

  /** What a builder does to the engine's model. `row` in ChgCoeff names an existing constraint of the base model. */
  datatype Record =
    | AddVar(v: Var, lo: real, hi: real, kind: VarKind)
    | AddConstr(c: Constraint)
    | ChgCoeff(row: int, v: Var, coef: real)

  /** The expression consisting of the single variable `v`. */
  function VarExpr(v: Var): (e: LinExpr)
    ensures e.terms == [Term(1.0, v)] && e.constant == 0.0
  {
    LinExpr([Term(1.0, v)], 0.0)
  }

  /** The constant expression `k`. */
  function ConstExpr(k: real): (e: LinExpr)
    ensures e.terms == [] && e.constant == k
  {
    LinExpr([], k)
  }

  /** Value of a list of terms under a valuation. */
  function TermsValue(ts: seq<Term>, val: Var -> real): real
  {
    if ts == [] then 0.0 else TermsValue(ts[..|ts| - 1], val) + ts[|ts| - 1].coef * val(ts[|ts| - 1].v)
  }

  function Value(e: LinExpr, val: Var -> real): real
  {
    TermsValue(e.terms, val) + e.constant
  }

  /** Whether constraint `c` holds under valuation `val`. */
  predicate Holds(c: Constraint, val: Var -> real)
  {
    var l, r := Value(c.lhs, val), Value(c.rhs, val);
    match c.sense
    case Le => l <= r
    case Ge => l >= r
    case Eq => l == r
  }

  /** The value of a concatenation of term lists is the sum of the values. */
  lemma {:induction false} TermsValueAppend(a: seq<Term>, b: seq<Term>, val: Var -> real)
    ensures TermsValue(a + b, val) == TermsValue(a, val) + TermsValue(b, val)
    decreases |b|
  {
    if b == [] {
      assert a + b == a;
    } else {
      var b' := b[..|b| - 1];
      assert (a + b)[..|a + b| - 1] == a + b';
      TermsValueAppend(a, b', val);
    }
  }

  /** Value of a sum of variables, each with coefficient 1, under a valuation. */
  function SumValue(vs: seq<Var>, val: Var -> real): real
  {
    PrefixSum(vs, |vs|, val)
  }

  /** Value of the sum of the first `k` variables of `vs`. */
  function PrefixSum(vs: seq<Var>, k: nat, val: Var -> real): real
    requires k <= |vs|
  {
    if k == 0 then 0.0 else PrefixSum(vs, k - 1, val) + val(vs[k - 1])
  }

  lemma {:induction false} PrefixSumOfAppendLeft(a: seq<Var>, b: seq<Var>, k: nat, val: Var -> real)
    requires k <= |a|
    ensures PrefixSum(a + b, k, val) == PrefixSum(a, k, val)
  {
    if k > 0 {
      PrefixSumOfAppendLeft(a, b, k - 1, val);
      assert (a + b)[k - 1] == a[k - 1];
    }
  }

  lemma {:induction false} PrefixSumOfAppendRight(a: seq<Var>, b: seq<Var>, k: nat, val: Var -> real)
    requires k <= |b|
    ensures PrefixSum(a + b, |a| + k, val) == SumValue(a, val) + PrefixSum(b, k, val)
  {
    if k == 0 {
      PrefixSumOfAppendLeft(a, b, |a|, val);
    } else {
      PrefixSumOfAppendRight(a, b, k - 1, val);
      assert (a + b)[|a| + k - 1] == b[k - 1];
    }
  }

  /** The value of a concatenated sum of variables is the sum of the values. */
  lemma SumValueAppend(a: seq<Var>, b: seq<Var>, val: Var -> real)
    ensures SumValue(a + b, val) == SumValue(a, val) + SumValue(b, val)
  {
    PrefixSumOfAppendRight(a, b, |b|, val);
  }

  /** Concatenation is associative (stated once, so that loop proofs need not rediscover it). */
  lemma AppendAssoc<T>(a: seq<T>, b: seq<T>, c: seq<T>)
    ensures a + b + c == a + (b + c)
  {
  }

  /** Membership in a concatenation, and in a sequence that extends another. */
  lemma InAppend<T>(a: seq<T>, b: seq<T>, x: T)
    ensures x in a + b <==> x in a || x in b
  {
  }

  lemma InLeft<T>(a: seq<T>, b: seq<T>, x: T)
    requires x in a
    ensures x in a + b
  {
  }

  lemma InRight<T>(a: seq<T>, b: seq<T>, x: T)
    requires x in b
    ensures x in a + b
  {
  }

  lemma InPrefix<T>(a: seq<T>, b: seq<T>, x: T)
    requires x in a && a <= b
    ensures x in b
  {
    var i :| 0 <= i < |a| && a[i] == x;
    assert b[i] == x;
  }

  lemma PrefixTransitive<T>(a: seq<T>, b: seq<T>, c: seq<T>)
    requires a <= b && b <= c
    ensures a <= c
  {
  }

  /**
   * Whether valuation `val` respects record `r`: a declared variable lies
   * within its bounds, and is 0 or 1 when binary; a constraint holds.
   * A coefficient change to a row of the base model is no condition by itself.
   */
  predicate Satisfied(r: Record, val: Var -> real)
  {
    match r
    case AddVar(v, lo, hi, kind) => lo <= val(v) <= hi && (kind == Binary ==> val(v) == 0.0 || val(v) == 1.0)
    case AddConstr(c) => Holds(c, val)
    case ChgCoeff(_, _, _) => true
  }

  /** Whether `val` respects every record of `rs`. */
  predicate AllSatisfied(rs: seq<Record>, val: Var -> real)
  {
    forall i :: 0 <= i < |rs| ==> Satisfied(rs[i], val)
  }

  lemma AllSatisfiedAppend(a: seq<Record>, b: seq<Record>, val: Var -> real)
    ensures AllSatisfied(a + b, val) <==> AllSatisfied(a, val) && AllSatisfied(b, val)
  {
    if AllSatisfied(a + b, val) {
      forall i | 0 <= i < |a|
        ensures Satisfied(a[i], val)
      {
        assert a[i] == (a + b)[i];
      }
      forall i | 0 <= i < |b|
        ensures Satisfied(b[i], val)
      {
        assert b[i] == (a + b)[|a| + i];
      }
    }
    if AllSatisfied(a, val) && AllSatisfied(b, val) {
      forall i | 0 <= i < |a + b|
        ensures Satisfied((a + b)[i], val)
      {
        if i < |a| {
          assert (a + b)[i] == a[i];
        } else {
          assert (a + b)[i] == b[i - |a|];
        }
      }
    }
  }

  /** A valuation that respects a list of records respects each of its members. */
  lemma SatisfiedMember(rs: seq<Record>, r: Record, val: Var -> real)
    requires AllSatisfied(rs, val) && r in rs
    ensures Satisfied(r, val)
  {
    var i :| 0 <= i < |rs| && rs[i] == r;
  }

  /** How many times `x` occurs in `xs`. */
  function Count<T(==)>(xs: seq<T>, x: T): nat
  {
    if xs == [] then 0 else Count(xs[..|xs| - 1], x) + (if xs[|xs| - 1] == x then 1 else 0)
  }

  lemma {:induction false} CountAppend<T>(a: seq<T>, b: seq<T>, x: T)
    ensures Count(a + b, x) == Count(a, x) + Count(b, x)
    decreases |b|
  {
    if b == [] {
      assert a + b == a;
    } else {
      var b' := b[..|b| - 1];
      assert (a + b)[..|a + b| - 1] == a + b';
      CountAppend(a, b', x);
    }
  }

  /** An element occurs in a sequence exactly when its count is positive. */
  lemma {:induction false} CountPositive<T>(xs: seq<T>, x: T)
    ensures Count(xs, x) > 0 <==> x in xs
  {
    if xs != [] {
      var xs' := xs[..|xs| - 1];
      CountPositive(xs', x);
      assert xs == xs' + [xs[|xs| - 1]];
    }
  }

  lemma CountSingleton<T>(y: T, x: T)
    ensures Count([y], x) == if y == x then 1 else 0
  {
    assert [y][..0] == [];
  }
}
