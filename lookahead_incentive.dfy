/**
 * The expression for the value of an incentivised action of the
 * limited-lookahead player, as a pure specification of the walk that
 * builds it, and the memo table for dominated actions.
 *
 * The walk goes down from the action's children to depth `lookAhead` (or
 * to a leaf). At each information set of the limited-lookahead player that
 * it meets first, it creates one binary variable per action and constrains
 * them to sum to 1: the player commits to one action there. At each
 * frontier node it creates a value variable bounded above both by the
 * node's weighted evaluation times the rational player's strategy
 * variable and by the same weight times the activation variable of the
 * sequence leading there. The expression is the sum of those value
 * variables.
 */
module LookAheadIncentive {
  import opened ConstraintLog
  import opened LookAheadGame

  /**
   * What the walk threads along: the model's records, the next unused
   * anonymous variable, the terms of the action expression, and the map from
   * information set to the choice variable of each action name
   * (`varActiveMap`).
   */
  datatype FillState = FillState(records: seq<Record>, nextAux: nat, terms: seq<Term>, active: map<int, map<string, Var>>)

  /** A node's heuristic weight: its chance probability times its evaluation. */
  function Weight(sf: SequenceForm, eval: seq<real>, y: int): real
    requires 0 <= y < |sf.natureProbability| && 0 <= y < |eval|
  {
    sf.natureProbability[y] * eval[y]
  }

  /**
   * The nodes of each information set offer the same action names, and
   * every information set in `active` has a choice variable for every
   * action name of each of its nodes.
   */
  ghost predicate ActiveCovers(g: Game, sf: SequenceForm, active: map<int, map<string, Var>>)
  {
    && NamesAgree(g, sf)
    && forall i, j :: OpponentNode(g, sf, i) && g.nodes[i].infoSet in active && 0 <= j < |g.nodes[i].actions| ==>
      g.nodes[i].actions[j].name in active[g.nodes[i].infoSet]
  }

  /** `b` keeps every entry of `a` unchanged. */
  predicate KeepsActive(a: map<int, map<string, Var>>, b: map<int, map<string, Var>>)
  {
    forall I :: I in a ==> I in b && b[I] == a[I]
  }

  // ---------------------------------------------------------------------
  // Opening an information set
  // ---------------------------------------------------------------------

  /** The `n` anonymous variables from `base` on. */
  function ChoiceVars(base: nat, n: nat): (vs: seq<Var>)
    ensures |vs| == n && forall j :: 0 <= j < n ==> vs[j] == Aux(base + j)
  {
    seq(n, j requires 0 <= j < n => Aux(base + j))
  }

  /**
   * The map from the names of the first `k` actions to their choice
   * variables; an action later in the list overwrites an earlier one of the
   * same name.
   */
  function ChoiceMap(acts: seq<Action>, base: nat, k: int): (m: map<string, Var>)
    requires 0 <= k <= |acts|
  {
    if k == 0 then map[]
    else ChoiceMap(acts, base, k - 1)[acts[k - 1].name := Aux(base + k - 1)]
  }

  /** The map names every one of the first `k` actions, and each name maps to the variable of an action of that name. */
  lemma {:induction false} ChoiceMapNames(acts: seq<Action>, base: nat, k: int)
    requires 0 <= k <= |acts|
    ensures forall j :: 0 <= j < k ==> acts[j].name in ChoiceMap(acts, base, k)
    ensures forall s :: s in ChoiceMap(acts, base, k) ==>
      exists j :: 0 <= j < k && acts[j].name == s && ChoiceMap(acts, base, k)[s] == Aux(base + j)
  {
    if k > 0 {
      ChoiceMapNames(acts, base, k - 1);
      var m := ChoiceMap(acts, base, k);
      forall s | s in m
        ensures exists j :: 0 <= j < k && acts[j].name == s && m[s] == Aux(base + j)
      {
        if s == acts[k - 1].name {
          assert acts[k - 1].name == s && m[s] == Aux(base + (k - 1));
        } else {
          var prev := ChoiceMap(acts, base, k - 1);
          assert s in prev;
          var j :| 0 <= j < k - 1 && acts[j].name == s && prev[s] == Aux(base + j);
          assert m[s] == prev[s];
        }
      }
    }
  }

  /** `1 * v` for each variable of the block. */
  function ChoiceTerms(base: nat, n: nat): seq<Term>
  {
    seq(n, j requires 0 <= j < n => Term(1.0, Aux(base + j)))
  }

  /** One binary variable per action. */
  function ChoiceDecls(base: nat, n: nat): seq<Record>
  {
    seq(n, j requires 0 <= j < n => AddVar(Aux(base + j), 0.0, 1.0, Binary))
  }

  /** The sum has one unit term per variable of the block, in order. */
  lemma ChoiceTermsAt(base: nat, n: nat)
    ensures |ChoiceTerms(base, n)| == n
    ensures forall j :: 0 <= j < n ==> ChoiceTerms(base, n)[j] == Term(1.0, ChoiceVars(base, n)[j])
  {
  }

  /** The declarations name the variables of the block, in order, as binaries. */
  lemma ChoiceDeclsAt(base: nat, n: nat)
    ensures |ChoiceDecls(base, n)| == n
    ensures forall j :: 0 <= j < n ==> ChoiceDecls(base, n)[j] == AddVar(ChoiceVars(base, n)[j], 0.0, 1.0, Binary)
  {
  }

  /** One binary variable per action, then `sum of them == 1`. */
  function ChoiceRecords(base: nat, n: nat): (rs: seq<Record>)
    ensures |rs| == n + 1
    ensures forall j :: 0 <= j < n ==> rs[j] == AddVar(ChoiceVars(base, n)[j], 0.0, 1.0, Binary)
    ensures rs[n] == AddConstr(Constraint(LinExpr(ChoiceTerms(base, n), 0.0), Eq, ConstExpr(1.0)))
  {
    seq(n, j requires 0 <= j < n => AddVar(Aux(base + j), 0.0, 1.0, Binary))
    + [AddConstr(Constraint(LinExpr(ChoiceTerms(base, n), 0.0), Eq, ConstExpr(1.0)))]
  }

  /** Opening the information set of decision node `id`: its choice block, and its entry in the map. */
  function OpenChoice(g: Game, sf: SequenceForm, id: int, st: FillState): (r: FillState)
    requires WellFormed(g, sf) && OpponentNode(g, sf, id) && ActiveCovers(g, sf, st.active)
    ensures ActiveCovers(g, sf, r.active) && g.nodes[id].infoSet in r.active
    ensures g.nodes[id].infoSet !in st.active ==> KeepsActive(st.active, r.active)
  {
    var n := |g.nodes[id].actions|;
    var r := FillState(st.records + ChoiceRecords(st.nextAux, n), st.nextAux + n, st.terms,
                       st.active[g.nodes[id].infoSet := ChoiceMap(g.nodes[id].actions, st.nextAux, n)]);
    assert ActiveCovers(g, sf, r.active) by {
      ChoiceMapNames(g.nodes[id].actions, st.nextAux, n);
      forall i, j | OpponentNode(g, sf, i) && g.nodes[i].infoSet in r.active && 0 <= j < |g.nodes[i].actions|
        ensures g.nodes[i].actions[j].name in r.active[g.nodes[i].infoSet]
      {
        if g.nodes[i].infoSet == g.nodes[id].infoSet {
          assert g.nodes[i].actions[j].name in ActionNames(g.nodes[id].actions);
        }
      }
    }
    r
  }

  /** What opening the information set of `id` adds, stated piece by piece. */
  lemma OpenChoiceParts(g: Game, sf: SequenceForm, id: int, st: FillState, r: FillState)
    requires WellFormed(g, sf) && OpponentNode(g, sf, id) && ActiveCovers(g, sf, st.active)
    requires r.records == st.records + ChoiceRecords(st.nextAux, |g.nodes[id].actions|)
    requires r.nextAux == st.nextAux + |g.nodes[id].actions| && r.terms == st.terms
    requires r.active == st.active[g.nodes[id].infoSet := ChoiceMap(g.nodes[id].actions, st.nextAux, |g.nodes[id].actions|)]
    ensures r == OpenChoice(g, sf, id, st)
  {
  }

  /** One more binary choice variable extends the block's declarations and its sum. */
  lemma ChoiceBlockSnoc(base: nat, j: nat)
    ensures ChoiceDecls(base, j + 1) == ChoiceDecls(base, j) + [AddVar(Aux(base + j), 0.0, 1.0, Binary)]
    ensures ChoiceTerms(base, j + 1) == ChoiceTerms(base, j) + [Term(1.0, Aux(base + j))]
  {
    assert ChoiceDecls(base, j + 1) == ChoiceDecls(base, j) + [AddVar(Aux(base + j), 0.0, 1.0, Binary)];
    assert ChoiceTerms(base, j + 1) == ChoiceTerms(base, j) + [Term(1.0, Aux(base + j))];
  }

  /** The declarations followed by the sum constraint make the block. */
  lemma ChoiceBlockClosed(rs: seq<Record>, base: nat, n: nat)
    ensures rs + ChoiceDecls(base, n) + [AddConstr(Constraint(LinExpr(ChoiceTerms(base, n), 0.0), Eq, ConstExpr(1.0)))]
         == rs + ChoiceRecords(base, n)
  {
    assert ChoiceDecls(base, n) + [AddConstr(Constraint(LinExpr(ChoiceTerms(base, n), 0.0), Eq, ConstExpr(1.0)))] == ChoiceRecords(base, n);
  }

  /** Naming one more action in the choice map. */
  lemma ChoiceMapSnoc(acts: seq<Action>, base: nat, j: int)
    requires 0 <= j < |acts|
    ensures ChoiceMap(acts, base, j + 1) == ChoiceMap(acts, base, j)[acts[j].name := Aux(base + j)]
  {
  }

  // ---------------------------------------------------------------------
  // The walk
  // ---------------------------------------------------------------------

  /** What a frontier node adds: its value variable `x`, bounded by its weighted strategy and by its parent's activation. */
  function FrontierRecords(sf: SequenceForm, eval: seq<real>, y: int, x: Var, parent: Var): seq<Record>
    requires 0 <= y < |sf.natureProbability| && 0 <= y < |eval|
    requires 0 <= y < |sf.sequenceIdForNodeP1| && 0 <= y < |sf.sequenceIdForNodeP2|
  {
    [AddVar(x, -DoubleMax, DoubleMax, Continuous), StrategyBound(sf, eval, y, x), ActiveBound(sf, eval, y, x, parent)]
  }

  /** `fillIncentivizedActionExpression(actionExpr, parent, id, varActiveMap, depth)`. */
  function FillWalk(g: Game, sf: SequenceForm, eval: seq<real>, lookAhead: int, parent: Var, id: int, depth: int, st: FillState): (r: FillState)
    requires WellFormed(g, sf) && |eval| == |g.nodes| && 0 <= id < |g.nodes| && ActiveCovers(g, sf, st.active)
    ensures ActiveCovers(g, sf, r.active) && KeepsActive(st.active, r.active)
    decreases |g.nodes| - id, 1, 0
  {
    if depth == lookAhead || g.nodes[id].leaf then
      var x := Aux(st.nextAux);
      FillState(st.records + FrontierRecords(sf, eval, id, x, parent), st.nextAux + 1, st.terms + [Term(1.0, x)], st.active)
    else
      var entered := if OpponentNode(g, sf, id) && g.nodes[id].infoSet !in st.active then OpenChoice(g, sf, id, st) else st;
      FillChildren(g, sf, eval, lookAhead, parent, id, depth, |g.nodes[id].actions|, entered)
  }

  /** The walk below the first `k` actions of inner node `id`, from state `st` in which its information set is open. */
  function FillChildren(g: Game, sf: SequenceForm, eval: seq<real>, lookAhead: int, parent: Var, id: int, depth: int, k: int, st: FillState): (r: FillState)
    requires WellFormed(g, sf) && |eval| == |g.nodes| && 0 <= id < |g.nodes| && !g.nodes[id].leaf
    requires 0 <= k <= |g.nodes[id].actions| && ActiveCovers(g, sf, st.active)
    requires OpponentNode(g, sf, id) ==> g.nodes[id].infoSet in st.active
    ensures ActiveCovers(g, sf, r.active) && KeepsActive(st.active, r.active)
    decreases |g.nodes| - id, 0, k
  {
    if k == 0 then st
    else
      var before := FillChildren(g, sf, eval, lookAhead, parent, id, depth, k - 1, st);
      var p := ChildParent(g, sf, id, k - 1, parent, before.active);
      FillWalk(g, sf, eval, lookAhead, p, g.nodes[id].actions[k - 1].child, depth + 1, before)
  }

  /** The walk below action `k` continues from the state the earlier actions left. */
  lemma FillChildrenNext(g: Game, sf: SequenceForm, eval: seq<real>, lookAhead: int, parent: Var, id: int, depth: int, k: int,
                         st: FillState, before: FillState, after: FillState)
    requires WellFormed(g, sf) && |eval| == |g.nodes| && 0 <= id < |g.nodes| && !g.nodes[id].leaf
    requires 0 <= k < |g.nodes[id].actions| && ActiveCovers(g, sf, st.active)
    requires OpponentNode(g, sf, id) ==> g.nodes[id].infoSet in st.active
    requires before == FillChildren(g, sf, eval, lookAhead, parent, id, depth, k, st)
    requires ActiveCovers(g, sf, before.active) && (OpponentNode(g, sf, id) ==> g.nodes[id].infoSet in before.active)
    requires after == FillWalk(g, sf, eval, lookAhead, ChildParent(g, sf, id, k, parent, before.active), g.nodes[id].actions[k].child, depth + 1, before)
    ensures after == FillChildren(g, sf, eval, lookAhead, parent, id, depth, k + 1, st)
    ensures ActiveCovers(g, sf, after.active) && (OpponentNode(g, sf, id) ==> g.nodes[id].infoSet in after.active)
  {
  }

  /** The parent variable handed to the child of action `j`: the action's choice variable at the limited-lookahead player's nodes, else `parent`. */
  function ChildParent(g: Game, sf: SequenceForm, id: int, j: int, parent: Var, active: map<int, map<string, Var>>): Var
    requires WellFormed(g, sf) && 0 <= id < |g.nodes| && !g.nodes[id].leaf && 0 <= j < |g.nodes[id].actions|
    requires ActiveCovers(g, sf, active) && (OpponentNode(g, sf, id) ==> g.nodes[id].infoSet in active)
  {
    if OpponentNode(g, sf, id) then active[g.nodes[id].infoSet][g.nodes[id].actions[j].name] else parent
  }

  // ---------------------------------------------------------------------
  // The walk only appends, and declares only fresh variables
  // ---------------------------------------------------------------------

  /** Every variable `rs` declares is an anonymous one numbered in `lo..hi-1`. */
  predicate DeclaresWithin(rs: seq<Record>, lo: nat, hi: nat)
  {
    forall i :: 0 <= i < |rs| && rs[i].AddVar? ==> rs[i].v.Aux? && lo <= rs[i].v.id < hi
  }

  lemma DeclaresWithinAppend(a: seq<Record>, b: seq<Record>, lo: nat, mid: nat, hi: nat)
    requires DeclaresWithin(a, lo, mid) && DeclaresWithin(b, mid, hi) && lo <= mid <= hi
    ensures DeclaresWithin(a + b, lo, hi)
  {
    forall i | 0 <= i < |a + b| && (a + b)[i].AddVar?
      ensures (a + b)[i].v.Aux? && lo <= (a + b)[i].v.id < hi
    {
      if i >= |a| {
        assert (a + b)[i] == b[i - |a|];
      }
    }
  }

  /**
   * `r` extends `st`: records and terms only appended, the variable counter
   * only advanced, and every variable declared in between numbered within
   * the advance, so never declared before.
   */
  predicate Grows(st: FillState, r: FillState)
  {
    && st.records <= r.records && st.terms <= r.terms && st.nextAux <= r.nextAux
    && DeclaresWithin(r.records[|st.records|..], st.nextAux, r.nextAux)
  }

  lemma GrowsTransitive(a: FillState, b: FillState, c: FillState)
    requires Grows(a, b) && Grows(b, c)
    ensures Grows(a, c)
  {
    assert c.records[|a.records|..] == b.records[|a.records|..] + c.records[|b.records|..];
    DeclaresWithinAppend(b.records[|a.records|..], c.records[|b.records|..], a.nextAux, b.nextAux, c.nextAux);
  }

  lemma OpenChoiceGrows(g: Game, sf: SequenceForm, id: int, st: FillState)
    requires WellFormed(g, sf) && OpponentNode(g, sf, id) && ActiveCovers(g, sf, st.active)
    ensures Grows(st, OpenChoice(g, sf, id, st))
  {
    var r := OpenChoice(g, sf, id, st);
    assert r.records[|st.records|..] == ChoiceRecords(st.nextAux, |g.nodes[id].actions|);
  }

  lemma {:induction false} FillWalkGrows(g: Game, sf: SequenceForm, eval: seq<real>, lookAhead: int, parent: Var, id: int, depth: int, st: FillState)
    requires WellFormed(g, sf) && |eval| == |g.nodes| && 0 <= id < |g.nodes| && ActiveCovers(g, sf, st.active)
    ensures Grows(st, FillWalk(g, sf, eval, lookAhead, parent, id, depth, st))
    decreases |g.nodes| - id, 1, 0
  {
    var r := FillWalk(g, sf, eval, lookAhead, parent, id, depth, st);
    if depth == lookAhead || g.nodes[id].leaf {
      assert r.records[|st.records|..] == FrontierRecords(sf, eval, id, Aux(st.nextAux), parent);
    } else {
      var entered := if OpponentNode(g, sf, id) && g.nodes[id].infoSet !in st.active then OpenChoice(g, sf, id, st) else st;
      if OpponentNode(g, sf, id) && g.nodes[id].infoSet !in st.active {
        OpenChoiceGrows(g, sf, id, st);
      } else {
        assert st.records[|st.records|..] == [];
      }
      FillChildrenGrows(g, sf, eval, lookAhead, parent, id, depth, |g.nodes[id].actions|, entered);
      GrowsTransitive(st, entered, r);
    }
  }

  lemma {:induction false} FillChildrenGrows(g: Game, sf: SequenceForm, eval: seq<real>, lookAhead: int, parent: Var, id: int, depth: int, k: int, st: FillState)
    requires WellFormed(g, sf) && |eval| == |g.nodes| && 0 <= id < |g.nodes| && !g.nodes[id].leaf
    requires 0 <= k <= |g.nodes[id].actions| && ActiveCovers(g, sf, st.active)
    requires OpponentNode(g, sf, id) ==> g.nodes[id].infoSet in st.active
    ensures Grows(st, FillChildren(g, sf, eval, lookAhead, parent, id, depth, k, st))
    decreases |g.nodes| - id, 0, k
  {
    if k == 0 {
      assert st.records[|st.records|..] == [];
    } else {
      var before := FillChildren(g, sf, eval, lookAhead, parent, id, depth, k - 1, st);
      var p := ChildParent(g, sf, id, k - 1, parent, before.active);
      FillChildrenGrows(g, sf, eval, lookAhead, parent, id, depth, k - 1, st);
      FillWalkGrows(g, sf, eval, lookAhead, p, g.nodes[id].actions[k - 1].child, depth + 1, before);
      GrowsTransitive(st, before, FillChildren(g, sf, eval, lookAhead, parent, id, depth, k, st));
    }
  }

  // ---------------------------------------------------------------------
  // The terms of the action expression
  // ---------------------------------------------------------------------

  /** The per-node tables cover every node of the tree. */
  predicate NodeTables(g: Game, sf: SequenceForm, eval: seq<real>)
  {
    && |eval| == |g.nodes| && |sf.natureProbability| == |g.nodes|
    && |sf.sequenceIdForNodeP1| == |g.nodes| && |sf.sequenceIdForNodeP2| == |g.nodes|
  }

  /** The bound `x <= weight(y) * strategy(y)` on the value variable `x` of frontier node `y`. */
  function StrategyBound(sf: SequenceForm, eval: seq<real>, y: int, x: Var): Record
    requires 0 <= y < |sf.natureProbability| && 0 <= y < |eval|
    requires 0 <= y < |sf.sequenceIdForNodeP1| && 0 <= y < |sf.sequenceIdForNodeP2|
  {
    AddConstr(Constraint(VarExpr(x), Le, LinExpr([Term(Weight(sf, eval, y), Strategy(RationalSequence(sf, y)))], 0.0)))
  }

  /** The bound `x <= weight(y) * p` on the value variable `x` of frontier node `y` reached under activation variable `p`. */
  function ActiveBound(sf: SequenceForm, eval: seq<real>, y: int, x: Var, p: Var): Record
    requires 0 <= y < |sf.natureProbability| && 0 <= y < |eval|
  {
    AddConstr(Constraint(VarExpr(x), Le, LinExpr([Term(Weight(sf, eval, y), p)], 0.0)))
  }

  /** `p` is a variable of a choice block whose records are all in `rs`. */
  ghost predicate ChoiceVarIn(rs: seq<Record>, p: Var)
  {
    exists base: nat, n: nat :: ChoiceBlockAt(rs, base, n) && p in ChoiceVars(base, n)
  }

  /**
   * `p` can gate a frontier node of the expression of an action with dual
   * sequence `q`: it is either a gate variable, declared binary and
   * constrained to `1 - D<q>`, or a choice variable of the limited-lookahead
   * player.
   */
  ghost predicate GateVar(rs: seq<Record>, q: int, p: Var)
  {
    (ActivationRecords(p, q)[0] in rs && ActivationRecords(p, q)[1] in rs) || ChoiceVarIn(rs, p)
  }

  lemma GateVarExtends(rs: seq<Record>, rs': seq<Record>, q: int, p: Var)
    requires GateVar(rs, q, p) && rs <= rs'
    ensures GateVar(rs', q, p)
  {
    if ActivationRecords(p, q)[0] in rs && ActivationRecords(p, q)[1] in rs {
      InPrefix(rs, rs', ActivationRecords(p, q)[0]);
      InPrefix(rs, rs', ActivationRecords(p, q)[1]);
    } else {
      var base: nat, n: nat :| ChoiceBlockAt(rs, base, n) && p in ChoiceVars(base, n);
      forall t | 0 <= t < n + 1
        ensures ChoiceRecords(base, n)[t] in rs'
      {
        InPrefix(rs, rs', ChoiceRecords(base, n)[t]);
      }
      assert ChoiceBlockAt(rs', base, n);
    }
  }

  /**
   * Both bounds of `x` as the value variable of frontier node `y` are in
   * `rs`, the second under a gating variable of dual sequence `q`.
   */
  ghost predicate ValueBounded(g: Game, sf: SequenceForm, eval: seq<real>, rs: seq<Record>, q: int, x: Var, y: int)
    requires NodeTables(g, sf, eval) && 0 <= y < |g.nodes|
  {
    StrategyBound(sf, eval, y, x) in rs && exists p :: ActiveBound(sf, eval, y, x, p) in rs && GateVar(rs, q, p)
  }

  /** Term `t` of `ts` is `1 * x` for the value variable `x` of the `t`-th node of `front`, bounded in `rs`. */
  ghost predicate TermsCover(g: Game, sf: SequenceForm, eval: seq<real>, rs: seq<Record>, q: int, ts: seq<Term>, front: seq<int>)
    requires NodeTables(g, sf, eval)
  {
    && |ts| == |front|
    && forall t :: 0 <= t < |ts| ==>
         0 <= front[t] < |g.nodes| && ts[t].coef == 1.0 && ValueBounded(g, sf, eval, rs, q, ts[t].v, front[t])
  }

  lemma ValueBoundedExtends(g: Game, sf: SequenceForm, eval: seq<real>, rs: seq<Record>, rs': seq<Record>, q: int, x: Var, y: int)
    requires NodeTables(g, sf, eval) && 0 <= y < |g.nodes|
    requires ValueBounded(g, sf, eval, rs, q, x, y) && rs <= rs'
    ensures ValueBounded(g, sf, eval, rs', q, x, y)
  {
    var p :| ActiveBound(sf, eval, y, x, p) in rs && GateVar(rs, q, p);
    InPrefix(rs, rs', ActiveBound(sf, eval, y, x, p));
    InPrefix(rs, rs', StrategyBound(sf, eval, y, x));
    GateVarExtends(rs, rs', q, p);
  }

  lemma TermsCoverAppend(g: Game, sf: SequenceForm, eval: seq<real>, rs1: seq<Record>, rs: seq<Record>, q: int,
                         ts1: seq<Term>, f1: seq<int>, ts2: seq<Term>, f2: seq<int>)
    requires NodeTables(g, sf, eval)
    requires TermsCover(g, sf, eval, rs1, q, ts1, f1) && rs1 <= rs && TermsCover(g, sf, eval, rs, q, ts2, f2)
    ensures TermsCover(g, sf, eval, rs, q, ts1 + ts2, f1 + f2)
  {
    forall t | 0 <= t < |ts1 + ts2|
      ensures 0 <= (f1 + f2)[t] < |g.nodes| && (ts1 + ts2)[t].coef == 1.0
      ensures ValueBounded(g, sf, eval, rs, q, (ts1 + ts2)[t].v, (f1 + f2)[t])
    {
      if t < |ts1| {
        assert (ts1 + ts2)[t] == ts1[t] && (f1 + f2)[t] == f1[t];
        ValueBoundedExtends(g, sf, eval, rs1, rs, q, ts1[t].v, f1[t]);
      } else {
        assert (ts1 + ts2)[t] == ts2[t - |ts1|] && (f1 + f2)[t] == f2[t - |ts1|];
      }
    }
  }

  /** Terms covering `f0` up to `before`, then terms covering `fc` from `before` to `r`, cover `f0 + fc`. */
  lemma TermsCoverStep(g: Game, sf: SequenceForm, eval: seq<real>, q: int, st: FillState, before: FillState, r: FillState, f0: seq<int>, fc: seq<int>)
    requires NodeTables(g, sf, eval)
    requires |st.terms| <= |before.terms| && TermsCover(g, sf, eval, before.records, q, before.terms[|st.terms|..], f0)
    requires Grows(before, r) && TermsCover(g, sf, eval, r.records, q, r.terms[|before.terms|..], fc)
    ensures |st.terms| <= |r.terms| && TermsCover(g, sf, eval, r.records, q, r.terms[|st.terms|..], f0 + fc)
  {
    assert r.terms[|st.terms|..] == before.terms[|st.terms|..] + r.terms[|before.terms|..];
    TermsCoverAppend(g, sf, eval, before.records, r.records, q, before.terms[|st.terms|..], f0, r.terms[|before.terms|..], fc);
  }

  /** Every information set in the map of `st` has its choice block in the model of `st`. */
  ghost predicate BlocksIn(st: FillState)
  {
    forall I :: I in st.active ==> ChoiceBlockIn(st.records, st.active[I])
  }

  /** Blocks in the model before, and blocks for the newly opened information sets, are all blocks in the model after. */
  lemma BlocksAfter(st: FillState, r: FillState)
    requires BlocksIn(st) && Grows(st, r) && KeepsActive(st.active, r.active) && NewBlocks(st.active, r)
    ensures BlocksIn(r)
  {
    forall I | I in r.active
      ensures ChoiceBlockIn(r.records, r.active[I])
    {
      if I in st.active {
        ChoiceBlockInExtends(st.records, r.records, st.active[I]);
      }
    }
  }

  /** Entering inner node `id`, possibly opening its information set, keeps the blocks and the gate of the walk. */
  lemma EnteredGated(g: Game, sf: SequenceForm, id: int, q: int, parent: Var, st: FillState, entered: FillState)
    requires WellFormed(g, sf) && 0 <= id < |g.nodes| && ActiveCovers(g, sf, st.active)
    requires BlocksIn(st) && GateVar(st.records, q, parent)
    requires entered == if OpponentNode(g, sf, id) && g.nodes[id].infoSet !in st.active then OpenChoice(g, sf, id, st) else st
    ensures BlocksIn(entered) && GateVar(entered.records, q, parent)
  {
    if OpponentNode(g, sf, id) && g.nodes[id].infoSet !in st.active {
      OpenChoiceGrows(g, sf, id, st);
      OpenChoiceBlock(g, sf, id, st);
      forall I | I in entered.active
        ensures ChoiceBlockIn(entered.records, entered.active[I])
      {
        if I in st.active {
          ChoiceBlockInExtends(st.records, entered.records, st.active[I]);
        }
      }
      GateVarExtends(st.records, entered.records, q, parent);
    }
  }

  /** The parent handed to a child is a gating variable: a choice variable at the limited-lookahead player's nodes, else the walk's own. */
  lemma ChildParentGated(g: Game, sf: SequenceForm, id: int, j: int, q: int, parent: Var, st: FillState)
    requires WellFormed(g, sf) && 0 <= id < |g.nodes| && !g.nodes[id].leaf && 0 <= j < |g.nodes[id].actions|
    requires ActiveCovers(g, sf, st.active) && (OpponentNode(g, sf, id) ==> g.nodes[id].infoSet in st.active)
    requires BlocksIn(st) && GateVar(st.records, q, parent)
    ensures GateVar(st.records, q, ChildParent(g, sf, id, j, parent, st.active))
  {
    if OpponentNode(g, sf, id) {
      var m := st.active[g.nodes[id].infoSet];
      assert ChoiceBlockIn(st.records, m);
      var base: nat, n: nat :| ChoiceBlockAt(st.records, base, n) && MapsIntoBlock(m, base, n);
      assert m[g.nodes[id].actions[j].name] in ChoiceVars(base, n);
    }
  }

  /** The state before the walk below action `k - 1` keeps the blocks, and its child's parent is a gating variable. */
  lemma ChildWalkReady(g: Game, sf: SequenceForm, eval: seq<real>, lookAhead: int, q: int, parent: Var, id: int, depth: int, k: int, st: FillState)
    requires WellFormed(g, sf) && |eval| == |g.nodes| && 0 <= id < |g.nodes| && !g.nodes[id].leaf
    requires 0 < k <= |g.nodes[id].actions| && ActiveCovers(g, sf, st.active)
    requires OpponentNode(g, sf, id) ==> g.nodes[id].infoSet in st.active
    requires BlocksIn(st) && GateVar(st.records, q, parent)
    ensures var before := FillChildren(g, sf, eval, lookAhead, parent, id, depth, k - 1, st);
      && BlocksIn(before)
      && GateVar(before.records, q, ChildParent(g, sf, id, k - 1, parent, before.active))
  {
    var before := FillChildren(g, sf, eval, lookAhead, parent, id, depth, k - 1, st);
    FillChildrenGrows(g, sf, eval, lookAhead, parent, id, depth, k - 1, st);
    FillChildrenChoices(g, sf, eval, lookAhead, parent, id, depth, k - 1, st);
    BlocksAfter(st, before);
    GateVarExtends(st.records, before.records, q, parent);
    ChildParentGated(g, sf, id, k - 1, q, parent, before);
  }

  /**
   * The walk adds one term per frontier node, in frontier order, each a
   * value variable bounded in the model by its weighted strategy and by a
   * weighted gating variable: one declared binary and constrained to
   * `1 - D<q>`, or a variable of a choice block in the model.
   */
  lemma {:induction false} FillWalkTerms(g: Game, sf: SequenceForm, eval: seq<real>, lookAhead: int, q: int, parent: Var, id: int, depth: int, st: FillState)
    requires WellFormed(g, sf) && |eval| == |g.nodes| && 0 <= id < |g.nodes| && ActiveCovers(g, sf, st.active)
    requires BlocksIn(st) && GateVar(st.records, q, parent)
    ensures var r := FillWalk(g, sf, eval, lookAhead, parent, id, depth, st);
      |st.terms| <= |r.terms| && TermsCover(g, sf, eval, r.records, q, r.terms[|st.terms|..], Frontier(g, id, depth, lookAhead))
    decreases |g.nodes| - id, 1, 0
  {
    var r := FillWalk(g, sf, eval, lookAhead, parent, id, depth, st);
    FillWalkGrows(g, sf, eval, lookAhead, parent, id, depth, st);
    if depth == lookAhead || g.nodes[id].leaf {
      var x := Aux(st.nextAux);
      assert r.terms[|st.terms|..] == [Term(1.0, x)];
      assert r.records[|st.records| + 1] == StrategyBound(sf, eval, id, x);
      assert r.records[|st.records| + 2] == ActiveBound(sf, eval, id, x, parent);
      GateVarExtends(st.records, r.records, q, parent);
    } else {
      var entered := if OpponentNode(g, sf, id) && g.nodes[id].infoSet !in st.active then OpenChoice(g, sf, id, st) else st;
      EnteredGated(g, sf, id, q, parent, st, entered);
      FillChildrenTerms(g, sf, eval, lookAhead, q, parent, id, depth, |g.nodes[id].actions|, entered);
    }
  }

  lemma {:induction false} FillChildrenTerms(g: Game, sf: SequenceForm, eval: seq<real>, lookAhead: int, q: int, parent: Var, id: int, depth: int, k: int, st: FillState)
    requires WellFormed(g, sf) && |eval| == |g.nodes| && 0 <= id < |g.nodes| && !g.nodes[id].leaf
    requires 0 <= k <= |g.nodes[id].actions| && ActiveCovers(g, sf, st.active)
    requires OpponentNode(g, sf, id) ==> g.nodes[id].infoSet in st.active
    requires BlocksIn(st) && GateVar(st.records, q, parent)
    ensures var r := FillChildren(g, sf, eval, lookAhead, parent, id, depth, k, st);
      |st.terms| <= |r.terms| && TermsCover(g, sf, eval, r.records, q, r.terms[|st.terms|..], FrontierBelow(g, id, depth, lookAhead, k))
    decreases |g.nodes| - id, 0, k
  {
    var r := FillChildren(g, sf, eval, lookAhead, parent, id, depth, k, st);
    if k == 0 {
      assert r.terms[|st.terms|..] == [];
    } else {
      var before := FillChildren(g, sf, eval, lookAhead, parent, id, depth, k - 1, st);
      var p := ChildParent(g, sf, id, k - 1, parent, before.active);
      var child := g.nodes[id].actions[k - 1].child;
      FillChildrenTerms(g, sf, eval, lookAhead, q, parent, id, depth, k - 1, st);
      ChildWalkReady(g, sf, eval, lookAhead, q, parent, id, depth, k, st);
      FillWalkTerms(g, sf, eval, lookAhead, q, p, child, depth + 1, before);
      ChildTermsJoin(g, sf, eval, lookAhead, q, parent, id, depth, k, st, before, r);
    }
  }

  /** The terms below the first `k - 1` actions, then those below action `k - 1`, cover the frontier below the first `k`. */
  lemma ChildTermsJoin(g: Game, sf: SequenceForm, eval: seq<real>, lookAhead: int, q: int, parent: Var, id: int, depth: int, k: int,
                       st: FillState, before: FillState, r: FillState)
    requires WellFormed(g, sf) && |eval| == |g.nodes| && 0 <= id < |g.nodes| && !g.nodes[id].leaf
    requires 0 < k <= |g.nodes[id].actions| && ActiveCovers(g, sf, st.active)
    requires OpponentNode(g, sf, id) ==> g.nodes[id].infoSet in st.active
    requires before == FillChildren(g, sf, eval, lookAhead, parent, id, depth, k - 1, st)
    requires r == FillChildren(g, sf, eval, lookAhead, parent, id, depth, k, st)
    requires |st.terms| <= |before.terms|
    requires TermsCover(g, sf, eval, before.records, q, before.terms[|st.terms|..], FrontierBelow(g, id, depth, lookAhead, k - 1))
    requires |before.terms| <= |r.terms|
    requires TermsCover(g, sf, eval, r.records, q, r.terms[|before.terms|..], Frontier(g, g.nodes[id].actions[k - 1].child, depth + 1, lookAhead))
    ensures |st.terms| <= |r.terms| && TermsCover(g, sf, eval, r.records, q, r.terms[|st.terms|..], FrontierBelow(g, id, depth, lookAhead, k))
  {
    var p := ChildParent(g, sf, id, k - 1, parent, before.active);
    var child := g.nodes[id].actions[k - 1].child;
    FillWalkGrows(g, sf, eval, lookAhead, p, child, depth + 1, before);
    TermsCoverStep(g, sf, eval, q, st, before, r, FrontierBelow(g, id, depth, lookAhead, k - 1), Frontier(g, child, depth + 1, lookAhead));
  }

  /** The heuristic value of the frontier `front` under the rational player's strategy: the sum of weight times strategy variable. */
  function FrontierValue(g: Game, sf: SequenceForm, eval: seq<real>, front: seq<int>, val: Var -> real): real
    requires NodeTables(g, sf, eval) && forall t :: 0 <= t < |front| ==> 0 <= front[t] < |g.nodes|
  {
    if front == [] then 0.0
    else
      var y := front[|front| - 1];
      FrontierValue(g, sf, eval, front[..|front| - 1], val) + Weight(sf, eval, y) * val(Strategy(RationalSequence(sf, y)))
  }

  lemma SingletonTermsValue(t: Term, val: Var -> real)
    ensures TermsValue([t], val) == t.coef * val(t.v)
  {
    assert [t][..0] == [];
  }

  /** A satisfied bound of the form `x <= w * v` gives `val(x) <= w * val(v)`. */
  lemma SingleBoundHolds(x: Var, w: real, v: Var, rs: seq<Record>, val: Var -> real)
    requires AllSatisfied(rs, val) && AddConstr(Constraint(VarExpr(x), Le, LinExpr([Term(w, v)], 0.0))) in rs
    ensures val(x) <= w * val(v)
  {
    var c := Constraint(VarExpr(x), Le, LinExpr([Term(w, v)], 0.0));
    SatisfiedMember(rs, AddConstr(c), val);
    SingletonTermsValue(Term(1.0, x), val);
    SingletonTermsValue(Term(w, v), val);
  }

  /** In any solution of the model, a gating variable is 0 or 1, and a gate variable equals `1 - D<q>`. */
  lemma GateVarSolved(rs: seq<Record>, q: int, p: Var, val: Var -> real)
    requires GateVar(rs, q, p) && AllSatisfied(rs, val)
    ensures val(p) == 0.0 || val(p) == 1.0
    ensures val(p) == 1.0 - val(Deact(q)) || ChoiceVarIn(rs, p)
  {
    if ActivationRecords(p, q)[0] in rs && ActivationRecords(p, q)[1] in rs {
      SatisfiedMember(rs, ActivationRecords(p, q)[0], val);
      SatisfiedMember(rs, ActivationRecords(p, q)[1], val);
      SingletonTermsValue(Term(1.0, p), val);
      SingletonTermsValue(Term(-1.0, Deact(q)), val);
    } else {
      var base: nat, n: nat :| ChoiceBlockAt(rs, base, n) && p in ChoiceVars(base, n);
      ChoiceBlockBinary(rs, base, n, val);
    }
  }

  /**
   * In any solution of the model, each value variable is at most its node's
   * weight times a binary gating variable, which is the gate `1 - D<q>` of
   * the action or a choice variable of the limited-lookahead player: a
   * frontier node below a deselected action contributes nothing.
   */
  lemma ActionValueGated(g: Game, sf: SequenceForm, eval: seq<real>, rs: seq<Record>, q: int, ts: seq<Term>, front: seq<int>, val: Var -> real, t: int)
    requires NodeTables(g, sf, eval)
    requires TermsCover(g, sf, eval, rs, q, ts, front) && AllSatisfied(rs, val) && 0 <= t < |ts|
    ensures exists p ::
      && ActiveBound(sf, eval, front[t], ts[t].v, p) in rs
      && (val(p) == 0.0 || val(p) == 1.0)
      && (val(p) == 1.0 - val(Deact(q)) || ChoiceVarIn(rs, p))
      && val(ts[t].v) <= Weight(sf, eval, front[t]) * val(p)
      && (val(p) == 0.0 ==> val(ts[t].v) <= 0.0)
  {
    assert ValueBounded(g, sf, eval, rs, q, ts[t].v, front[t]);
    var p :| ActiveBound(sf, eval, front[t], ts[t].v, p) in rs && GateVar(rs, q, p);
    SingleBoundHolds(ts[t].v, Weight(sf, eval, front[t]), p, rs, val);
    GateVarSolved(rs, q, p, val);
  }

  /**
   * In any solution of the model, the action expression is at most the
   * heuristic value of its frontier under the rational player's strategy.
   */
  lemma ActionValueBounded(g: Game, sf: SequenceForm, eval: seq<real>, rs: seq<Record>, q: int, ts: seq<Term>, front: seq<int>, val: Var -> real)
    requires NodeTables(g, sf, eval)
    requires TermsCover(g, sf, eval, rs, q, ts, front) && AllSatisfied(rs, val)
    ensures TermsValue(ts, val) <= FrontierValue(g, sf, eval, front, val)
  {
    CoverBelow(g, sf, eval, rs, q, ts, front, val);
    SumBelow(g, sf, eval, ts, front, val);
  }

  /** Each unit term `x` of `ts` is at most the weighted strategy of its frontier node. */
  ghost predicate TermsBelow(g: Game, sf: SequenceForm, eval: seq<real>, ts: seq<Term>, front: seq<int>, val: Var -> real)
    requires NodeTables(g, sf, eval)
  {
    && |ts| == |front|
    && forall t :: 0 <= t < |ts| ==>
         0 <= front[t] < |g.nodes| && ts[t].coef == 1.0
         && val(ts[t].v) <= Weight(sf, eval, front[t]) * val(Strategy(RationalSequence(sf, front[t])))
  }

  /** A solution meets every strategy bound the covering terms have in `rs`. */
  lemma CoverBelow(g: Game, sf: SequenceForm, eval: seq<real>, rs: seq<Record>, q: int, ts: seq<Term>, front: seq<int>, val: Var -> real)
    requires NodeTables(g, sf, eval)
    requires TermsCover(g, sf, eval, rs, q, ts, front) && AllSatisfied(rs, val)
    ensures TermsBelow(g, sf, eval, ts, front, val)
  {
    forall t | 0 <= t < |ts|
      ensures val(ts[t].v) <= Weight(sf, eval, front[t]) * val(Strategy(RationalSequence(sf, front[t])))
    {
      assert ValueBounded(g, sf, eval, rs, q, ts[t].v, front[t]);
      SingleBoundHolds(ts[t].v, Weight(sf, eval, front[t]), Strategy(RationalSequence(sf, front[t])), rs, val);
    }
  }

  /** Summing the pointwise bounds. */
  lemma {:induction false} SumBelow(g: Game, sf: SequenceForm, eval: seq<real>, ts: seq<Term>, front: seq<int>, val: Var -> real)
    requires NodeTables(g, sf, eval) && TermsBelow(g, sf, eval, ts, front, val)
    ensures TermsValue(ts, val) <= FrontierValue(g, sf, eval, front, val)
    decreases |ts|
  {
    if ts != [] {
      var n := |ts| - 1;
      forall t | 0 <= t < n
        ensures ts[..n][t] == ts[t] && front[..n][t] == front[t]
      {
      }
      SumBelow(g, sf, eval, ts[..n], front[..n], val);
      var y := front[n];
      SumStep(TermsValue(ts[..n], val), FrontierValue(g, sf, eval, front[..n], val),
              val(ts[n].v), Weight(sf, eval, y) * val(Strategy(RationalSequence(sf, y))));
    }
  }

  lemma SumStep(a: real, b: real, x: real, y: real)
    requires a <= b && x <= y
    ensures a + 1.0 * x <= b + y
  {
  }

  // ---------------------------------------------------------------------
  // The information sets the walk opens, and their choice blocks
  // ---------------------------------------------------------------------

  /** The information sets of the limited-lookahead player's decision nodes strictly inside the window below `id`. */
  function WindowInfoSets(g: Game, sf: SequenceForm, id: int, depth: int, lookAhead: int): set<int>
    requires ChildrenAfter(g) && 0 <= id < |g.nodes|
    decreases |g.nodes| - id, 1, 0
  {
    if depth == lookAhead || g.nodes[id].leaf then {}
    else (if OpponentNode(g, sf, id) then {g.nodes[id].infoSet} else {}) + WindowBelow(g, sf, id, depth, lookAhead, |g.nodes[id].actions|)
  }

  function WindowBelow(g: Game, sf: SequenceForm, id: int, depth: int, lookAhead: int, k: int): set<int>
    requires ChildrenAfter(g) && 0 <= id < |g.nodes| && 0 <= k <= |g.nodes[id].actions|
    decreases |g.nodes| - id, 0, k
  {
    if k == 0 then {}
    else WindowBelow(g, sf, id, depth, lookAhead, k - 1) + WindowInfoSets(g, sf, g.nodes[id].actions[k - 1].child, depth + 1, lookAhead)
  }

  /** The walk opens exactly the information sets in its window that were not open already. */
  lemma {:induction false} FillWalkOpens(g: Game, sf: SequenceForm, eval: seq<real>, lookAhead: int, parent: Var, id: int, depth: int, st: FillState)
    requires WellFormed(g, sf) && |eval| == |g.nodes| && 0 <= id < |g.nodes| && ActiveCovers(g, sf, st.active)
    ensures FillWalk(g, sf, eval, lookAhead, parent, id, depth, st).active.Keys == st.active.Keys + WindowInfoSets(g, sf, id, depth, lookAhead)
    decreases |g.nodes| - id, 1, 0
  {
    if !(depth == lookAhead || g.nodes[id].leaf) {
      var entered := if OpponentNode(g, sf, id) && g.nodes[id].infoSet !in st.active then OpenChoice(g, sf, id, st) else st;
      FillChildrenOpens(g, sf, eval, lookAhead, parent, id, depth, |g.nodes[id].actions|, entered);
    }
  }

  lemma {:induction false} FillChildrenOpens(g: Game, sf: SequenceForm, eval: seq<real>, lookAhead: int, parent: Var, id: int, depth: int, k: int, st: FillState)
    requires WellFormed(g, sf) && |eval| == |g.nodes| && 0 <= id < |g.nodes| && !g.nodes[id].leaf
    requires 0 <= k <= |g.nodes[id].actions| && ActiveCovers(g, sf, st.active)
    requires OpponentNode(g, sf, id) ==> g.nodes[id].infoSet in st.active
    ensures FillChildren(g, sf, eval, lookAhead, parent, id, depth, k, st).active.Keys == st.active.Keys + WindowBelow(g, sf, id, depth, lookAhead, k)
    decreases |g.nodes| - id, 0, k
  {
    if k > 0 {
      var before := FillChildren(g, sf, eval, lookAhead, parent, id, depth, k - 1, st);
      var p := ChildParent(g, sf, id, k - 1, parent, before.active);
      FillChildrenOpens(g, sf, eval, lookAhead, parent, id, depth, k - 1, st);
      FillWalkOpens(g, sf, eval, lookAhead, p, g.nodes[id].actions[k - 1].child, depth + 1, before);
    }
  }

  /** Every record of the choice block of `n` variables from `base` on is in `rs`. */
  ghost predicate ChoiceBlockAt(rs: seq<Record>, base: nat, n: nat)
  {
    forall t :: 0 <= t < n + 1 ==> ChoiceRecords(base, n)[t] in rs
  }

  /** `m` maps distinct names to distinct variables. */
  predicate Injective(m: map<string, Var>)
  {
    forall s, s' :: s in m && s' in m && m[s] == m[s'] ==> s == s'
  }

  /** Every variable of `m` is one of the `n` anonymous variables from `base` on. */
  predicate MapsIntoBlock(m: map<string, Var>, base: nat, n: nat)
  {
    forall s :: s in m ==> m[s] in ChoiceVars(base, n)
  }

  /** `m` maps distinct action names to distinct variables of one choice block whose records are all in `rs`. */
  ghost predicate ChoiceBlockIn(rs: seq<Record>, m: map<string, Var>)
  {
    Injective(m) && exists base: nat, n: nat :: ChoiceBlockAt(rs, base, n) && MapsIntoBlock(m, base, n)
  }

  lemma ChoiceBlockInExtends(rs: seq<Record>, rs': seq<Record>, m: map<string, Var>)
    requires ChoiceBlockIn(rs, m) && rs <= rs'
    ensures ChoiceBlockIn(rs', m)
  {
    var base: nat, n: nat :| ChoiceBlockAt(rs, base, n) && MapsIntoBlock(m, base, n);
    forall t | 0 <= t < n + 1
      ensures ChoiceRecords(base, n)[t] in rs'
    {
      InPrefix(rs, rs', ChoiceRecords(base, n)[t]);
    }
    assert ChoiceBlockAt(rs', base, n);
  }

  /** The name map of an opened information set sends distinct names to distinct variables of its block. */
  lemma ChoiceMapInBlock(acts: seq<Action>, base: nat, n: nat)
    requires n <= |acts|
    ensures Injective(ChoiceMap(acts, base, n)) && MapsIntoBlock(ChoiceMap(acts, base, n), base, n)
  {
    var m := ChoiceMap(acts, base, n);
    ChoiceMapNames(acts, base, n);
    forall s, s' | s in m && s' in m && m[s] == m[s']
      ensures s == s'
    {
      var j :| 0 <= j < n && acts[j].name == s && m[s] == Aux(base + j);
      var j' :| 0 <= j' < n && acts[j'].name == s' && m[s'] == Aux(base + j');
    }
    forall s | s in m
      ensures m[s] in ChoiceVars(base, n)
    {
      var j :| 0 <= j < n && acts[j].name == s && m[s] == Aux(base + j);
      assert ChoiceVars(base, n)[j] == m[s];
    }
  }

  lemma ChoiceBlockAtAppend(rs: seq<Record>, base: nat, n: nat)
    ensures ChoiceBlockAt(rs + ChoiceRecords(base, n), base, n)
  {
    forall t | 0 <= t < n + 1
      ensures ChoiceRecords(base, n)[t] in rs + ChoiceRecords(base, n)
    {
      assert (rs + ChoiceRecords(base, n))[|rs| + t] == ChoiceRecords(base, n)[t];
    }
  }

  lemma OpenChoiceBlock(g: Game, sf: SequenceForm, id: int, st: FillState)
    requires WellFormed(g, sf) && OpponentNode(g, sf, id) && ActiveCovers(g, sf, st.active)
    ensures var r := OpenChoice(g, sf, id, st); ChoiceBlockIn(r.records, r.active[g.nodes[id].infoSet])
  {
    var r := OpenChoice(g, sf, id, st);
    var acts := g.nodes[id].actions;
    assert r.records == st.records + ChoiceRecords(st.nextAux, |acts|);
    assert r.active[g.nodes[id].infoSet] == ChoiceMap(acts, st.nextAux, |acts|);
    AppendedChoiceBlock(st.records, acts, st.nextAux);
  }

  /** Appending the choice block of a node's actions gives its name map a block in the model. */
  lemma AppendedChoiceBlock(rs: seq<Record>, acts: seq<Action>, base: nat)
    ensures ChoiceBlockIn(rs + ChoiceRecords(base, |acts|), ChoiceMap(acts, base, |acts|))
  {
    ChoiceMapInBlock(acts, base, |acts|);
    ChoiceBlockAtAppend(rs, base, |acts|);
    assert ChoiceBlockAt(rs + ChoiceRecords(base, |acts|), base, |acts|) && MapsIntoBlock(ChoiceMap(acts, base, |acts|), base, |acts|);
  }

  /** Every information set in `r.active` but not in `before` has its choice block in `r.records`. */
  ghost predicate NewBlocks(before: map<int, map<string, Var>>, r: FillState)
  {
    forall I :: I in r.active && I !in before ==> ChoiceBlockIn(r.records, r.active[I])
  }

  /** New blocks up to `mid`, then new blocks from `mid2` (same map, more records) to `r`, are new blocks from the start. */
  lemma NewBlocksStep(start: map<int, map<string, Var>>, mid: FillState, mid2: FillState, r: FillState)
    requires NewBlocks(start, mid) && mid.records <= mid2.records && mid2.active == mid.active
    requires mid2.records <= r.records && NewBlocks(mid2.active, r) && KeepsActive(mid.active, r.active)
    ensures NewBlocks(start, r)
  {
    forall I | I in r.active && I !in start
      ensures ChoiceBlockIn(r.records, r.active[I])
    {
      if I in mid.active {
        PrefixTransitive(mid.records, mid2.records, r.records);
        ChoiceBlockInExtends(mid.records, r.records, mid.active[I]);
      }
    }
  }

  /** Each information set the walk opens is given one choice block, whose records are in the resulting model. */
  lemma {:induction false} FillWalkChoices(g: Game, sf: SequenceForm, eval: seq<real>, lookAhead: int, parent: Var, id: int, depth: int, st: FillState)
    requires WellFormed(g, sf) && |eval| == |g.nodes| && 0 <= id < |g.nodes| && ActiveCovers(g, sf, st.active)
    ensures NewBlocks(st.active, FillWalk(g, sf, eval, lookAhead, parent, id, depth, st))
    decreases |g.nodes| - id, 1, 0
  {
    if !(depth == lookAhead || g.nodes[id].leaf) {
      if OpponentNode(g, sf, id) && g.nodes[id].infoSet !in st.active {
        OpeningChoices(g, sf, eval, lookAhead, parent, id, depth, st);
      } else {
        FillChildrenChoices(g, sf, eval, lookAhead, parent, id, depth, |g.nodes[id].actions|, st);
      }
    }
  }

  /** The case of `FillWalkChoices` where the walk opens the information set of `id` itself. */
  lemma {:induction false} OpeningChoices(g: Game, sf: SequenceForm, eval: seq<real>, lookAhead: int, parent: Var, id: int, depth: int, st: FillState)
    requires WellFormed(g, sf) && |eval| == |g.nodes| && OpponentNode(g, sf, id) && ActiveCovers(g, sf, st.active)
    requires g.nodes[id].infoSet !in st.active
    ensures NewBlocks(st.active, FillChildren(g, sf, eval, lookAhead, parent, id, depth, |g.nodes[id].actions|, OpenChoice(g, sf, id, st)))
    decreases |g.nodes| - id, 0, |g.nodes[id].actions| + 1
  {
    var I0 := g.nodes[id].infoSet;
    var entered := OpenChoice(g, sf, id, st);
    var r := FillChildren(g, sf, eval, lookAhead, parent, id, depth, |g.nodes[id].actions|, entered);
    assert entered.active.Keys == st.active.Keys + {I0};
    FillChildrenChoices(g, sf, eval, lookAhead, parent, id, depth, |g.nodes[id].actions|, entered);
    OpenChoiceBlock(g, sf, id, st);
    FillChildrenGrows(g, sf, eval, lookAhead, parent, id, depth, |g.nodes[id].actions|, entered);
    ChoiceBlockInExtends(entered.records, r.records, entered.active[I0]);
  }

  lemma {:induction false} FillChildrenChoices(g: Game, sf: SequenceForm, eval: seq<real>, lookAhead: int, parent: Var, id: int, depth: int, k: int, st: FillState)
    requires WellFormed(g, sf) && |eval| == |g.nodes| && 0 <= id < |g.nodes| && !g.nodes[id].leaf
    requires 0 <= k <= |g.nodes[id].actions| && ActiveCovers(g, sf, st.active)
    requires OpponentNode(g, sf, id) ==> g.nodes[id].infoSet in st.active
    ensures NewBlocks(st.active, FillChildren(g, sf, eval, lookAhead, parent, id, depth, k, st))
    decreases |g.nodes| - id, 0, k
  {
    if k > 0 {
      var r := FillChildren(g, sf, eval, lookAhead, parent, id, depth, k, st);
      var before := FillChildren(g, sf, eval, lookAhead, parent, id, depth, k - 1, st);
      var p := ChildParent(g, sf, id, k - 1, parent, before.active);
      var child := g.nodes[id].actions[k - 1].child;
      FillChildrenChoices(g, sf, eval, lookAhead, parent, id, depth, k - 1, st);
      FillWalkChoices(g, sf, eval, lookAhead, p, child, depth + 1, before);
      FillWalkGrows(g, sf, eval, lookAhead, p, child, depth + 1, before);
      NewBlocksStep(st.active, before, before, r);
    }
  }

  // ---------------------------------------------------------------------
  // What a solved choice block means
  // ---------------------------------------------------------------------

  /** How many terms of `ts` have a variable valued 1. */
  function OnesCount(ts: seq<Term>, val: Var -> real): nat
  {
    if ts == [] then 0 else OnesCount(ts[..|ts| - 1], val) + (if val(ts[|ts| - 1].v) == 1.0 then 1 else 0)
  }

  /** The terms are `1 * v` for variables valued 0 or 1. */
  predicate UnitBinaryTerms(ts: seq<Term>, val: Var -> real)
  {
    forall i :: 0 <= i < |ts| ==> ts[i].coef == 1.0 && (val(ts[i].v) == 0.0 || val(ts[i].v) == 1.0)
  }

  /** A sum of binary variables counts the variables valued 1. */
  lemma {:induction false} UnitBinarySum(ts: seq<Term>, val: Var -> real)
    requires UnitBinaryTerms(ts, val)
    ensures TermsValue(ts, val) == OnesCount(ts, val) as real
  {
    if ts != [] {
      var n := |ts| - 1;
      assert UnitBinaryTerms(ts[..n], val) by {
        forall i | 0 <= i < n ensures ts[..n][i] == ts[i] { }
      }
      UnitBinarySum(ts[..n], val);
    }
  }

  lemma {:induction false} OnesCountZero(ts: seq<Term>, val: Var -> real)
    ensures OnesCount(ts, val) == 0 ==> forall i :: 0 <= i < |ts| ==> val(ts[i].v) != 1.0
  {
    if ts != [] {
      var n := |ts| - 1;
      OnesCountZero(ts[..n], val);
      assert forall i :: 0 <= i < n ==> ts[..n][i] == ts[i];
    }
  }

  /** A single term valued 1 is the only one. */
  lemma {:induction false} OnesCountOne(ts: seq<Term>, val: Var -> real)
    ensures OnesCount(ts, val) == 1 ==>
      exists i :: 0 <= i < |ts| && val(ts[i].v) == 1.0 && forall i' :: 0 <= i' < |ts| && i' != i ==> val(ts[i'].v) != 1.0
  {
    if ts != [] {
      var n := |ts| - 1;
      OnesCountOne(ts[..n], val);
      OnesCountZero(ts[..n], val);
      assert forall i :: 0 <= i < n ==> ts[..n][i] == ts[i];
      if OnesCount(ts, val) == 1 && val(ts[n].v) != 1.0 {
        var i :| 0 <= i < n && val(ts[..n][i].v) == 1.0 && forall i' :: 0 <= i' < n && i' != i ==> val(ts[..n][i'].v) != 1.0;
        assert val(ts[i].v) == 1.0;
      }
    }
  }

  /** In any solution of the model, a choice block selects exactly one of its variables. */
  lemma ChoiceBlockPicksOne(rs: seq<Record>, base: nat, n: nat, val: Var -> real)
    requires ChoiceBlockAt(rs, base, n) && AllSatisfied(rs, val)
    ensures forall j :: 0 <= j < n ==> val(ChoiceVars(base, n)[j]) == 0.0 || val(ChoiceVars(base, n)[j]) == 1.0
    ensures exists j :: (0 <= j < n && val(ChoiceVars(base, n)[j]) == 1.0 &&
      forall j' :: 0 <= j' < n && j' != j ==> val(ChoiceVars(base, n)[j']) == 0.0)
  {
    var vs := ChoiceVars(base, n);
    var ts := ChoiceTerms(base, n);
    ChoiceBlockBinary(rs, base, n, val);
    ChoiceBlockSumsToOne(rs, base, n, val);
    UnitBinarySum(ts, val);
    OnesCountOne(ts, val);
    var i :| 0 <= i < n && val(ts[i].v) == 1.0 && forall i' :: 0 <= i' < n && i' != i ==> val(ts[i'].v) != 1.0;
    forall j' | 0 <= j' < n && j' != i
      ensures val(vs[j']) == 0.0
    {
      assert ts[j'].v == vs[j'];
    }
    assert val(vs[i]) == 1.0;
  }

  /** In any solution of the model, the unit terms of a choice block are binary and sum to 1. */
  lemma ChoiceBlockSumsToOne(rs: seq<Record>, base: nat, n: nat, val: Var -> real)
    requires ChoiceBlockAt(rs, base, n) && AllSatisfied(rs, val)
    ensures UnitBinaryTerms(ChoiceTerms(base, n), val) && TermsValue(ChoiceTerms(base, n), val) == 1.0
  {
    var ts := ChoiceTerms(base, n);
    ChoiceBlockBinary(rs, base, n, val);
    forall i | 0 <= i < n
      ensures ts[i].coef == 1.0 && (val(ts[i].v) == 0.0 || val(ts[i].v) == 1.0)
    {
      assert ts[i].v == ChoiceVars(base, n)[i];
    }
    var c := Constraint(LinExpr(ts, 0.0), Eq, ConstExpr(1.0));
    assert ChoiceRecords(base, n)[n] == AddConstr(c);
    SatisfiedMember(rs, AddConstr(c), val);
    assert Holds(c, val);
  }

  lemma ChoiceBlockBinary(rs: seq<Record>, base: nat, n: nat, val: Var -> real)
    requires ChoiceBlockAt(rs, base, n) && AllSatisfied(rs, val)
    ensures forall j :: 0 <= j < n ==> val(ChoiceVars(base, n)[j]) == 0.0 || val(ChoiceVars(base, n)[j]) == 1.0
  {
    forall j | 0 <= j < n
      ensures val(ChoiceVars(base, n)[j]) == 0.0 || val(ChoiceVars(base, n)[j]) == 1.0
    {
      SatisfiedMember(rs, ChoiceRecords(base, n)[j], val);
    }
  }

  /**
   * In any solution of the model, the choice variables of an opened
   * information set are binary and at most one action name is selected.
   */
  lemma ChoiceMapPicksAtMostOne(rs: seq<Record>, m: map<string, Var>, val: Var -> real)
    requires ChoiceBlockIn(rs, m) && AllSatisfied(rs, val)
    ensures forall s :: s in m ==> val(m[s]) == 0.0 || val(m[s]) == 1.0
    ensures forall s, s' :: s in m && s' in m && val(m[s]) == 1.0 && val(m[s']) == 1.0 ==> s == s'
  {
    var base: nat, n: nat :| ChoiceBlockAt(rs, base, n) && MapsIntoBlock(m, base, n);
    var vs := ChoiceVars(base, n);
    ChoiceBlockPicksOne(rs, base, n, val);
    var i :| 0 <= i < n && val(vs[i]) == 1.0 && forall j' :: 0 <= j' < n && j' != i ==> val(vs[j']) == 0.0;
    forall s | s in m
      ensures val(m[s]) == 0.0 || val(m[s]) == 1.0
    {
      var j :| 0 <= j < n && vs[j] == m[s];
    }
    forall s, s' | s in m && s' in m && val(m[s]) == 1.0 && val(m[s']) == 1.0
      ensures s == s'
    {
      var j :| 0 <= j < n && vs[j] == m[s];
      var j' :| 0 <= j' < n && vs[j'] == m[s'];
    }
  }

  // ---------------------------------------------------------------------
  // The expression of an incentivised action
  // ---------------------------------------------------------------------

  /**
   * The action of a node that stands for the action named `name`: the last
   * action of that name, or the node's first action when none has it.
   */
  function MatchingAction(acts: seq<Action>, name: string): (j: int)
    requires |acts| > 0
    ensures 0 <= j < |acts|
    ensures acts[j].name == name || (j == 0 && forall i :: 0 <= i < |acts| ==> acts[i].name != name)
    ensures forall i :: j < i < |acts| ==> acts[i].name != name
  {
    LastMatch(acts, name, |acts|)
  }

  /** The last action among the first `k` named `name`, or 0 when none is. */
  function LastMatch(acts: seq<Action>, name: string, k: int): (j: int)
    requires 0 < |acts| && 0 <= k <= |acts|
    ensures 0 <= j < |acts| && (k == 0 ==> j == 0)
    ensures (j < k && acts[j].name == name) || (j == 0 && forall i :: 0 <= i < k ==> acts[i].name != name)
    ensures forall i :: j < i < k ==> acts[i].name != name
  {
    if k == 0 then 0
    else if acts[k - 1].name == name then k - 1
    else LastMatch(acts, name, k - 1)
  }

  /** `actionActive = 1 - D<q>` for a fresh binary `actionActive`. */
  function ActivationRecords(v: Var, q: int): seq<Record>
  {
    [AddVar(v, 0.0, 1.0, Binary), AddConstr(Constraint(VarExpr(v), Eq, LinExpr([Term(-1.0, Deact(q))], 1.0)))]
  }

  /** The state after declaring gate variable `v = 1 - D<q>`. */
  function Gate(st: FillState, q: int): (r: FillState)
    ensures r.records == st.records + ActivationRecords(Aux(st.nextAux), q)
    ensures r.nextAux == st.nextAux + 1 && r.terms == st.terms && r.active == st.active
  {
    FillState(st.records + ActivationRecords(Aux(st.nextAux), q), st.nextAux + 1, st.terms, st.active)
  }

  /** The first node of information set `k`, whose actions name the actions of the set. */
  function FirstNode(g: Game, k: int): int
    requires 0 <= k < |g.infoSets| && |g.infoSets[k]| > 0
  {
    g.infoSets[k][0]
  }

  /** The child that the `m`-th node of information set `k` reaches by the action named like action `a` of the first node. */
  function IncentiveChild(g: Game, sf: SequenceForm, k: int, a: int, m: int): (c: int)
    requires WellFormed(g, sf) && 0 <= k < |g.infoSets| && 0 <= m < |g.infoSets[k]|
    requires 0 <= a < |g.nodes[FirstNode(g, k)].actions|
    ensures 0 <= c < |g.nodes|
  {
    var x := g.infoSets[k][m];
    g.nodes[x].actions[MatchingAction(g.nodes[x].actions, g.nodes[FirstNode(g, k)].actions[a].name)].child
  }

  /**
   * `getIncentivizedActionExpression(k, action a)` after the first `m`
   * nodes of the information set: for each, a gate variable equal to
   * `1 - D<q>` for the action's sequence `q`, then the walk from the matching
   * child at depth 1 under that gate.
   */
  function IncentiveNodes(g: Game, sf: SequenceForm, eval: seq<real>, lookAhead: int, k: int, a: int, m: int, st: FillState): (r: FillState)
    requires WellFormed(g, sf) && |eval| == |g.nodes| && 0 <= k < |g.infoSets| && 0 <= m <= |g.infoSets[k]|
    requires |g.infoSets[k]| > 0 && 0 <= a < |g.nodes[FirstNode(g, k)].actions| && ActiveCovers(g, sf, st.active)
    ensures ActiveCovers(g, sf, r.active) && KeepsActive(st.active, r.active)
  {
    if m == 0 then st
    else
      var before := IncentiveNodes(g, sf, eval, lookAhead, k, a, m - 1, st);
      FillWalk(g, sf, eval, lookAhead, Aux(before.nextAux), IncentiveChild(g, sf, k, a, m - 1), 1,
               Gate(before, DualSequence(g, sf, FirstNode(g, k), a)))
  }

  /** The frontiers below the matching children of the first `m` nodes of information set `k`, in order. */
  function IncentiveFrontier(g: Game, sf: SequenceForm, lookAhead: int, k: int, a: int, m: int): (f: seq<int>)
    requires WellFormed(g, sf) && 0 <= k < |g.infoSets| && 0 <= m <= |g.infoSets[k]|
    requires |g.infoSets[k]| > 0 && 0 <= a < |g.nodes[FirstNode(g, k)].actions|
    ensures forall t :: 0 <= t < |f| ==> 0 <= f[t] < |g.nodes|
  {
    if m == 0 then []
    else IncentiveFrontier(g, sf, lookAhead, k, a, m - 1) + Frontier(g, IncentiveChild(g, sf, k, a, m - 1), 1, lookAhead)
  }

  /**
   * What building from `st` to `r` achieves: the model and terms only grow,
   * with fresh variables; the new terms cover frontier `front`, gated under
   * dual sequence `q`; every newly opened information set has its choice
   * block.
   */
  ghost predicate Built(g: Game, sf: SequenceForm, eval: seq<real>, q: int, st: FillState, r: FillState, front: seq<int>)
    requires NodeTables(g, sf, eval)
  {
    && Grows(st, r) && KeepsActive(st.active, r.active)
    && TermsCover(g, sf, eval, r.records, q, r.terms[|st.terms|..], front)
    && NewBlocks(st.active, r)
  }

  /** Two consecutive builds make one. */
  lemma BuiltAppend(g: Game, sf: SequenceForm, eval: seq<real>, q: int, st: FillState, mid: FillState, r: FillState, f0: seq<int>, f1: seq<int>)
    requires NodeTables(g, sf, eval)
    requires Built(g, sf, eval, q, st, mid, f0) && Built(g, sf, eval, q, mid, r, f1)
    ensures Built(g, sf, eval, q, st, r, f0 + f1)
  {
    GrowsTransitive(st, mid, r);
    assert r.terms[|st.terms|..] == mid.terms[|st.terms|..] + r.terms[|mid.terms|..];
    TermsCoverAppend(g, sf, eval, mid.records, r.records, q, mid.terms[|st.terms|..], f0, r.terms[|mid.terms|..], f1);
    NewBlocksStep(st.active, mid, mid, r);
  }

  /** Declaring a gate variable, then walking below `child` under it, is a build of the child's frontier. */
  lemma GatedWalkBuilt(g: Game, sf: SequenceForm, eval: seq<real>, lookAhead: int, child: int, q: int, before: FillState)
    requires WellFormed(g, sf) && |eval| == |g.nodes| && 0 <= child < |g.nodes| && ActiveCovers(g, sf, before.active)
    requires BlocksIn(before)
    ensures Built(g, sf, eval, q, before, FillWalk(g, sf, eval, lookAhead, Aux(before.nextAux), child, 1, Gate(before, q)), Frontier(g, child, 1, lookAhead))
  {
    var v := Aux(before.nextAux);
    var gated := Gate(before, q);
    var r := FillWalk(g, sf, eval, lookAhead, v, child, 1, gated);
    assert gated.records[|before.records|..] == ActivationRecords(v, q);
    assert Grows(before, gated);
    assert gated.records[|before.records|] == ActivationRecords(v, q)[0];
    assert gated.records[|before.records| + 1] == ActivationRecords(v, q)[1];
    assert GateVar(gated.records, q, v);
    forall I | I in gated.active
      ensures ChoiceBlockIn(gated.records, gated.active[I])
    {
      ChoiceBlockInExtends(before.records, gated.records, before.active[I]);
    }
    FillWalkTerms(g, sf, eval, lookAhead, q, v, child, 1, gated);
    FillWalkGrows(g, sf, eval, lookAhead, v, child, 1, gated);
    FillWalkChoices(g, sf, eval, lookAhead, v, child, 1, gated);
    GrowsTransitive(before, gated, r);
  }

  /** The arguments of `getIncentivizedActionExpression` name an information set and an action of its first node. */
  ghost predicate IncentiveArgs(g: Game, sf: SequenceForm, eval: seq<real>, k: int, a: int)
  {
    WellFormed(g, sf) && NamesAgree(g, sf) && |eval| == |g.nodes| && 0 <= k < |g.infoSets| && |g.infoSets[k]| > 0
    && 0 <= a < |g.nodes[g.infoSets[k][0]].actions|
  }

  /** The state after the first `m` nodes, starting from a fresh name map and no terms. */
  function IncentivePrefix(g: Game, sf: SequenceForm, eval: seq<real>, lookAhead: int, k: int, a: int, m: int, records: seq<Record>, nextAux: nat): (r: FillState)
    requires IncentiveArgs(g, sf, eval, k, a) && 0 <= m <= |g.infoSets[k]|
    ensures ActiveCovers(g, sf, r.active)
  {
    IncentiveNodes(g, sf, eval, lookAhead, k, a, m, FillState(records, nextAux, [], map[]))
  }

  /** Node `m`: a gate for the action's sequence, then the walk below the node's action of the same name. */
  lemma IncentivePrefixStep(g: Game, sf: SequenceForm, eval: seq<real>, lookAhead: int, k: int, a: int, m: int, records: seq<Record>, nextAux: nat,
                            before: FillState, j: int, q: int, after: FillState)
    requires IncentiveArgs(g, sf, eval, k, a) && 0 <= m < |g.infoSets[k]|
    requires before == IncentivePrefix(g, sf, eval, lookAhead, k, a, m, records, nextAux)
    requires j == MatchingAction(g.nodes[g.infoSets[k][m]].actions, g.nodes[g.infoSets[k][0]].actions[a].name)
    requires q == sf.dualSequence[(k, g.nodes[g.infoSets[k][0]].actions[a].name)]
    requires after == FillWalk(g, sf, eval, lookAhead, Aux(before.nextAux), g.nodes[g.infoSets[k][m]].actions[j].child, 1,
                               FillState(before.records + ActivationRecords(Aux(before.nextAux), q), before.nextAux + 1, before.terms, before.active))
    ensures after == IncentivePrefix(g, sf, eval, lookAhead, k, a, m + 1, records, nextAux)
  {
    assert q == DualSequence(g, sf, FirstNode(g, k), a);
  }

  /** After every node of the set, the prefix is the whole expression. */
  lemma IncentivePrefixWhole(g: Game, sf: SequenceForm, eval: seq<real>, lookAhead: int, k: int, a: int, records: seq<Record>, nextAux: nat)
    requires IncentiveArgs(g, sf, eval, k, a)
    ensures IncentivePrefix(g, sf, eval, lookAhead, k, a, |g.infoSets[k]|, records, nextAux)
         == IncentiveExpression(g, sf, eval, lookAhead, k, a, records, nextAux)
  {
  }

  /**
   * Building the expression over the first `m` nodes only appends to the
   * model with fresh variables, adds one term per frontier node below the
   * matching children, each gated under the action's dual sequence, and
   * gives each information set it opens a choice block (given that every
   * information set open at the start has one).
   */
  lemma {:induction false} IncentiveNodesBuilt(g: Game, sf: SequenceForm, eval: seq<real>, lookAhead: int, k: int, a: int, m: int, st: FillState)
    requires WellFormed(g, sf) && |eval| == |g.nodes| && 0 <= k < |g.infoSets| && 0 <= m <= |g.infoSets[k]|
    requires |g.infoSets[k]| > 0 && 0 <= a < |g.nodes[FirstNode(g, k)].actions| && ActiveCovers(g, sf, st.active)
    requires BlocksIn(st)
    ensures Built(g, sf, eval, DualSequence(g, sf, FirstNode(g, k), a), st, IncentiveNodes(g, sf, eval, lookAhead, k, a, m, st),
                  IncentiveFrontier(g, sf, lookAhead, k, a, m))
  {
    var q := DualSequence(g, sf, FirstNode(g, k), a);
    if m == 0 {
      assert st.records[|st.records|..] == [] && st.terms[|st.terms|..] == [];
    } else {
      var before := IncentiveNodes(g, sf, eval, lookAhead, k, a, m - 1, st);
      var child := IncentiveChild(g, sf, k, a, m - 1);
      var r := FillWalk(g, sf, eval, lookAhead, Aux(before.nextAux), child, 1, Gate(before, q));
      assert IncentiveFrontier(g, sf, lookAhead, k, a, m) == IncentiveFrontier(g, sf, lookAhead, k, a, m - 1) + Frontier(g, child, 1, lookAhead);
      IncentiveNodesBuilt(g, sf, eval, lookAhead, k, a, m - 1, st);
      BlocksAfter(st, before);
      GatedWalkBuilt(g, sf, eval, lookAhead, child, q, before);
      BuiltAppend(g, sf, eval, q, st, before, r, IncentiveFrontier(g, sf, lookAhead, k, a, m - 1), Frontier(g, child, 1, lookAhead));
    }
  }

  /** The whole expression for action `a` of information set `k`, built from a fresh name map on top of `records`. */
  function IncentiveExpression(g: Game, sf: SequenceForm, eval: seq<real>, lookAhead: int, k: int, a: int, records: seq<Record>, nextAux: nat): FillState
    requires IncentiveArgs(g, sf, eval, k, a)
  {
    IncentiveNodes(g, sf, eval, lookAhead, k, a, |g.infoSets[k]|, FillState(records, nextAux, [], map[]))
  }

  /**
   * Building the expression only appends to the model and declares fresh
   * variables; the expression has one term per frontier node below the
   * matching children; each information set opened on the way has its own
   * choice block.
   */
  lemma IncentiveExpressionShape(g: Game, sf: SequenceForm, eval: seq<real>, lookAhead: int, k: int, a: int, records: seq<Record>, nextAux: nat)
    requires IncentiveArgs(g, sf, eval, k, a)
    ensures var r := IncentiveExpression(g, sf, eval, lookAhead, k, a, records, nextAux);
      && Grows(FillState(records, nextAux, [], map[]), r)
      && TermsCover(g, sf, eval, r.records, DualSequence(g, sf, FirstNode(g, k), a), r.terms, IncentiveFrontier(g, sf, lookAhead, k, a, |g.infoSets[k]|))
      && forall I :: I in r.active ==> ChoiceBlockIn(r.records, r.active[I])
  {
    var st := FillState(records, nextAux, [], map[]);
    var r := IncentiveExpression(g, sf, eval, lookAhead, k, a, records, nextAux);
    IncentiveNodesBuilt(g, sf, eval, lookAhead, k, a, |g.infoSets[k]|, st);
    assert r.terms[0..] == r.terms;
  }

  /**
   * In any solution of the model: the action's value is at most the
   * heuristic value of its frontier under the rational player's strategy,
   * and at each information set met within the look-ahead window the
   * limited-lookahead player selects at most one action name.
   */
  lemma IncentiveExpressionSolved(g: Game, sf: SequenceForm, eval: seq<real>, lookAhead: int, k: int, a: int, records: seq<Record>, nextAux: nat, val: Var -> real)
    requires IncentiveArgs(g, sf, eval, k, a)
    requires AllSatisfied(IncentiveExpression(g, sf, eval, lookAhead, k, a, records, nextAux).records, val)
    ensures var r := IncentiveExpression(g, sf, eval, lookAhead, k, a, records, nextAux);
      TermsValue(r.terms, val) <= FrontierValue(g, sf, eval, IncentiveFrontier(g, sf, lookAhead, k, a, |g.infoSets[k]|), val)
    ensures var r := IncentiveExpression(g, sf, eval, lookAhead, k, a, records, nextAux);
      forall I, s, s' :: I in r.active && s in r.active[I] && s' in r.active[I] && val(r.active[I][s]) == 1.0 && val(r.active[I][s']) == 1.0 ==> s == s'
  {
    var r := IncentiveExpression(g, sf, eval, lookAhead, k, a, records, nextAux);
    IncentiveExpressionShape(g, sf, eval, lookAhead, k, a, records, nextAux);
    ActionValueBounded(g, sf, eval, r.records, DualSequence(g, sf, FirstNode(g, k), a), r.terms, IncentiveFrontier(g, sf, lookAhead, k, a, |g.infoSets[k]|), val);
    forall I | I in r.active
      ensures forall s, s' :: s in r.active[I] && s' in r.active[I] && val(r.active[I][s]) == 1.0 && val(r.active[I][s']) == 1.0 ==> s == s'
    {
      ChoiceMapPicksAtMostOne(r.records, r.active[I], val);
    }
  }

  /**
   * In any solution of the model, the value of each frontier node of the
   * expression is at most its weight times a binary gating variable: the
   * gate `1 - D<q>` of the action's dual sequence `q`, or a choice variable
   * of the limited-lookahead player. So a node whose gate is 0 (the action's
   * sequence is deactivated, or the choice leading there is not taken)
   * contributes at most 0.
   */
  lemma IncentiveTermsGated(g: Game, sf: SequenceForm, eval: seq<real>, lookAhead: int, k: int, a: int, records: seq<Record>, nextAux: nat,
                            val: Var -> real, t: int)
    requires IncentiveArgs(g, sf, eval, k, a)
    requires AllSatisfied(IncentiveExpression(g, sf, eval, lookAhead, k, a, records, nextAux).records, val)
    requires 0 <= t < |IncentiveExpression(g, sf, eval, lookAhead, k, a, records, nextAux).terms|
    ensures var r := IncentiveExpression(g, sf, eval, lookAhead, k, a, records, nextAux);
      var front := IncentiveFrontier(g, sf, lookAhead, k, a, |g.infoSets[k]|);
      var q := DualSequence(g, sf, FirstNode(g, k), a);
      && t < |front|
      && exists p ::
        && (val(p) == 0.0 || val(p) == 1.0)
        && (val(p) == 1.0 - val(Deact(q)) || ChoiceVarIn(r.records, p))
        && val(r.terms[t].v) <= Weight(sf, eval, front[t]) * val(p)
        && (val(p) == 0.0 ==> val(r.terms[t].v) <= 0.0)
  {
    var r := IncentiveExpression(g, sf, eval, lookAhead, k, a, records, nextAux);
    var front := IncentiveFrontier(g, sf, lookAhead, k, a, |g.infoSets[k]|);
    var q := DualSequence(g, sf, FirstNode(g, k), a);
    IncentiveExpressionShape(g, sf, eval, lookAhead, k, a, records, nextAux);
    ActionValueGated(g, sf, eval, r.records, q, r.terms, front, val, t);
  }

  // ---------------------------------------------------------------------
  // The memo table of dominated actions
  // ---------------------------------------------------------------------

  /** What `getDominatedActionExpression` returns and leaves behind: the expression, the table, the model, the counter. */
  datatype Lookup = Lookup(expr: LinExpr, table: map<int, LinExpr>, records: seq<Record>, nextAux: nat)

  /**
   * `getDominatedActionExpression` for the action at position `a` of the
   * information set's first node: the remembered expression, or else a new
   * value variable `x >= 0` whose expression is remembered.
   */
  function DominatedLookup(table: map<int, LinExpr>, a: int, records: seq<Record>, nextAux: nat): (r: Lookup)
    ensures a in r.table && r.expr == r.table[a] && r.table.Keys == table.Keys + {a}
    ensures forall b :: b in table ==> r.table[b] == table[b]
    ensures records <= r.records && nextAux <= r.nextAux && DeclaresWithin(r.records[|records|..], nextAux, r.nextAux)
  {
    if a in table then
      assert records[|records|..] == [];
      Lookup(table[a], table, records, nextAux)
    else
      var x := Aux(nextAux);
      var added := [AddVar(x, -DoubleMax, DoubleMax, Continuous), AddConstr(Constraint(VarExpr(x), Ge, ConstExpr(0.0)))];
      assert (records + added)[|records|..] == added;
      Lookup(VarExpr(x), table[a := VarExpr(x)], records + added, nextAux + 1)
  }

  /** Asking again for the same action returns the same expression and changes nothing. */
  lemma DominatedLookupMemoises(table: map<int, LinExpr>, a: int, records: seq<Record>, nextAux: nat)
    ensures var r := DominatedLookup(table, a, records, nextAux);
      DominatedLookup(r.table, a, r.records, r.nextAux) == r
  {
  }

  /** In any solution of the model, a newly created dominated-action value is non-negative. */
  lemma DominatedValueNonNegative(table: map<int, LinExpr>, a: int, records: seq<Record>, nextAux: nat, val: Var -> real)
    requires a !in table && AllSatisfied(DominatedLookup(table, a, records, nextAux).records, val)
    ensures Value(DominatedLookup(table, a, records, nextAux).expr, val) >= 0.0
  {
    var r := DominatedLookup(table, a, records, nextAux);
    var c := Constraint(VarExpr(Aux(nextAux)), Ge, ConstExpr(0.0));
    assert r.records[|records| + 1] == AddConstr(c);
    SatisfiedMember(r.records, AddConstr(c), val);
    SingletonTermsValue(Term(1.0, Aux(nextAux)), val);
  }
}
