/**
 * The deactivation part of the limited-lookahead opponent model: binary
 * deactivation variables per dual sequence, the widening of every dual
 * constraint but the empty sequence's, and the tree walk that ties the
 * deactivation of each action of the limited-lookahead player to the
 * deactivation of the sequence leading to its information set.
 */
module LookAheadDeactivation {
  import opened ConstraintLog
  import opened LookAheadGame

  // ---------------------------------------------------------------------
  // Boolean dual variables and dual-constraint widening
  // ---------------------------------------------------------------------

  /** The variables declared for `n` dual sequences: every `D<q>`, then every `T<q>`, binary with lower bound 0. */
  function BooleanDualVarDecls(n: nat): (rs: seq<Record>)
    ensures |rs| == 2 * n
  {
    seq(n, q => AddVar(Deact(q), 0.0, 1.0, Binary)) + seq(n, q => AddVar(LookAheadChoice(q), 0.0, 1.0, Binary))
  }

  /** Each of `D<q>` and `T<q>` is declared exactly once for `0 <= q < n`, and never for another `q`. */
  lemma BooleanDualVarsDeclaredOnce(n: nat, q: int)
    ensures 0 <= q < n ==> BooleanDualVarDecls(n)[q] == AddVar(Deact(q), 0.0, 1.0, Binary)
    ensures 0 <= q < n ==> BooleanDualVarDecls(n)[n + q] == AddVar(LookAheadChoice(q), 0.0, 1.0, Binary)
    ensures forall i :: 0 <= i < 2 * n && BooleanDualVarDecls(n)[i].AddVar? && BooleanDualVarDecls(n)[i].v == Deact(q) ==> i == q
    ensures forall i :: 0 <= i < 2 * n && BooleanDualVarDecls(n)[i].AddVar? && BooleanDualVarDecls(n)[i].v == LookAheadChoice(q) ==> i == n + q
  {
    var rs := BooleanDualVarDecls(n);
    forall i | 0 <= i < 2 * n
      ensures rs[i] == if i < n then AddVar(Deact(i), 0.0, 1.0, Binary) else AddVar(LookAheadChoice(i - n), 0.0, 1.0, Binary)
    {
    }
  }

  /** A valuation respecting the declarations gives every `D<q>`, `q < n`, the value 0 or 1. */
  lemma DeactivationVarsAreBinary(rs: seq<Record>, n: nat, q: int, val: Var -> real)
    requires AllSatisfied(rs, val) && BooleanDualVarDecls(n) <= rs && 0 <= q < n
    ensures val(Deact(q)) == 0.0 || val(Deact(q)) == 1.0
  {
    BooleanDualVarsDeclaredOnce(n, q);
    assert rs[q] == AddVar(Deact(q), 0.0, 1.0, Binary);
  }

  /**
   * The coefficient changes that widen the dual constraints: the dual
   * constraint of every sequence but the empty one gets coefficient `c` on
   * that sequence's deactivation variable (the row of sequence `q` is named `q`).
   */
  function DualRemoval(n: nat, c: real): (rs: seq<Record>)
  {
    seq(if n == 0 then 0 else n - 1, i => ChgCoeff(i + 1, Deact(i + 1), c))
  }

  /** Every dual sequence `1..n-1` is widened by `c`, each in its own row, and the empty sequence 0 never is. */
  lemma DualRemovalSkipsEmptySequence(n: nat, c: real)
    ensures forall r :: r in DualRemoval(n, c) ==> r.ChgCoeff? && 1 <= r.row < n && r.v == Deact(r.row) && r.coef == c
    ensures forall q :: 1 <= q < n ==> ChgCoeff(q, Deact(q), c) in DualRemoval(n, c)
    ensures |DualRemoval(n, c)| == if n == 0 then 0 else n - 1
  {
    var rs := DualRemoval(n, c);
    forall q | 1 <= q < n
      ensures ChgCoeff(q, Deact(q), c) in rs
    {
      assert rs[q - 1] == ChgCoeff(q, Deact(q), c);
    }
  }

  // ---------------------------------------------------------------------
  // The deactivation walk
  // ---------------------------------------------------------------------

  /** The walk's decision to constrain the information set of `node`, entered with parent sequence variable `parent`. */
  datatype Opening = Opening(node: int, parent: Var)

  /** What the walk has produced so far: the model, the shared visited set, and (for the proofs) the openings in order. */
  datatype DeactState = DeactState(records: seq<Record>, visited: set<int>, openings: seq<Opening>)

  /** `v >= parent`: an action is deactivated whenever the sequence leading to it is. */
  function EdgeConstraint(v: Var, parent: Var): Record
  {
    AddConstr(Constraint(VarExpr(v), Ge, VarExpr(parent)))
  }

  /** `1 * D<q>` for the sequence `q` of each action of node `x`, in action order. */
  function ActionDeactTerms(g: Game, sf: SequenceForm, x: int): (ts: seq<Term>)
    requires WellFormed(g, sf) && OpponentNode(g, sf, x)
    ensures |ts| == |g.nodes[x].actions|
  {
    seq(|g.nodes[x].actions|, j requires 0 <= j < |g.nodes[x].actions| => Term(1.0, Deact(DualSequence(g, sf, x, j))))
  }

  /** `sum of D<action> - parent <= #actions - 1`: an active parent keeps some action active. */
  function SumConstraint(g: Game, sf: SequenceForm, x: int, parent: Var): Record
    requires WellFormed(g, sf) && OpponentNode(g, sf, x)
  {
    AddConstr(Constraint(LinExpr(ActionDeactTerms(g, sf, x) + [Term(-1.0, parent)], 0.0), Le,
                         ConstExpr((|g.nodes[x].actions| - 1) as real)))
  }

  /**
   * The walk from node `id`, whose nearest sequence of the limited-lookahead
   * player has deactivation variable `parent`. A leaf adds nothing. A
   * decision node of that player whose information set is not yet visited
   * marks it visited, walks each action's subtree under that action's own
   * variable and then adds `v >= parent` for it, and finally adds the sum
   * constraint. Any other node walks its subtrees: under each action's own
   * variable at an already visited information set of that player, under
   * `parent` otherwise.
   */
  function DeactWalk(g: Game, sf: SequenceForm, id: int, parent: Var, st: DeactState): DeactState
    requires WellFormed(g, sf) && 0 <= id < |g.nodes|
    decreases |g.nodes| - id, 1, 0
  {
    var node := g.nodes[id];
    if node.leaf then st
    else if node.player == sf.playerNotToSolveFor && node.infoSet !in st.visited then
      var entered := DeactState(st.records, st.visited + {node.infoSet}, st.openings + [Opening(id, parent)]);
      var st' := DeactActions(g, sf, id, parent, |node.actions|, entered);
      st'.(records := st'.records + [SumConstraint(g, sf, id, parent)])
    else DeactPass(g, sf, id, parent, |node.actions|, st)
  }

  /** The first `k` actions of an information set being constrained. */
  function DeactActions(g: Game, sf: SequenceForm, id: int, parent: Var, k: int, st: DeactState): DeactState
    requires WellFormed(g, sf) && OpponentNode(g, sf, id) && 0 <= k <= |g.nodes[id].actions|
    decreases |g.nodes| - id, 0, k
  {
    if k == 0 then st
    else
      var v := Deact(DualSequence(g, sf, id, k - 1));
      var st' := DeactWalk(g, sf, g.nodes[id].actions[k - 1].child, v, DeactActions(g, sf, id, parent, k - 1, st));
      st'.(records := st'.records + [EdgeConstraint(v, parent)])
  }

  /** The first `k` actions of a node that is passed through. */
  function DeactPass(g: Game, sf: SequenceForm, id: int, parent: Var, k: int, st: DeactState): DeactState
    requires WellFormed(g, sf) && 0 <= id < |g.nodes| && !g.nodes[id].leaf && 0 <= k <= |g.nodes[id].actions|
    decreases |g.nodes| - id, 0, k
  {
    if k == 0 then st
    else
      var p := if g.nodes[id].player == sf.playerNotToSolveFor then Deact(DualSequence(g, sf, id, k - 1)) else parent;
      DeactWalk(g, sf, g.nodes[id].actions[k - 1].child, p, DeactPass(g, sf, id, parent, k - 1, st))
  }

  // ---------------------------------------------------------------------
  // The walk only appends
  // ---------------------------------------------------------------------

  /** Whether `st'` extends `st`: records and openings only appended, visited only grown. */
  predicate Extends(st: DeactState, st': DeactState)
  {
    st.records <= st'.records && st.openings <= st'.openings && st.visited <= st'.visited
  }

  lemma ExtendsTransitive(a: DeactState, b: DeactState, c: DeactState)
    requires Extends(a, b) && Extends(b, c)
    ensures Extends(a, c)
  {
    PrefixTransitive(a.records, b.records, c.records);
    PrefixTransitive(a.openings, b.openings, c.openings);
  }

  lemma {:induction false} DeactWalkExtends(g: Game, sf: SequenceForm, id: int, parent: Var, st: DeactState)
    requires WellFormed(g, sf) && 0 <= id < |g.nodes|
    ensures Extends(st, DeactWalk(g, sf, id, parent, st))
    decreases |g.nodes| - id, 1, 0
  {
    var node := g.nodes[id];
    if node.leaf {
    } else if node.player == sf.playerNotToSolveFor && node.infoSet !in st.visited {
      var entered := DeactState(st.records, st.visited + {node.infoSet}, st.openings + [Opening(id, parent)]);
      var st' := DeactActions(g, sf, id, parent, |node.actions|, entered);
      DeactActionsExtends(g, sf, id, parent, |node.actions|, entered);
      ExtendsTransitive(st, entered, st');
      ExtendsTransitive(st, st', st'.(records := st'.records + [SumConstraint(g, sf, id, parent)]));
    } else {
      DeactPassExtends(g, sf, id, parent, |node.actions|, st);
    }
  }

  lemma {:induction false} DeactActionsExtends(g: Game, sf: SequenceForm, id: int, parent: Var, k: int, st: DeactState)
    requires WellFormed(g, sf) && OpponentNode(g, sf, id) && 0 <= k <= |g.nodes[id].actions|
    ensures Extends(st, DeactActions(g, sf, id, parent, k, st))
    decreases |g.nodes| - id, 0, k
  {
    if k > 0 {
      var v := Deact(DualSequence(g, sf, id, k - 1));
      var before := DeactActions(g, sf, id, parent, k - 1, st);
      var st' := DeactWalk(g, sf, g.nodes[id].actions[k - 1].child, v, before);
      DeactActionsExtends(g, sf, id, parent, k - 1, st);
      DeactWalkExtends(g, sf, g.nodes[id].actions[k - 1].child, v, before);
      ExtendsTransitive(st, before, st');
      ExtendsTransitive(st, st', st'.(records := st'.records + [EdgeConstraint(v, parent)]));
    }
  }

  lemma {:induction false} DeactPassExtends(g: Game, sf: SequenceForm, id: int, parent: Var, k: int, st: DeactState)
    requires WellFormed(g, sf) && 0 <= id < |g.nodes| && !g.nodes[id].leaf && 0 <= k <= |g.nodes[id].actions|
    ensures Extends(st, DeactPass(g, sf, id, parent, k, st))
    decreases |g.nodes| - id, 0, k
  {
    if k > 0 {
      var p := if g.nodes[id].player == sf.playerNotToSolveFor then Deact(DualSequence(g, sf, id, k - 1)) else parent;
      var before := DeactPass(g, sf, id, parent, k - 1, st);
      DeactPassExtends(g, sf, id, parent, k - 1, st);
      DeactWalkExtends(g, sf, g.nodes[id].actions[k - 1].child, p, before);
      ExtendsTransitive(st, before, DeactWalk(g, sf, g.nodes[id].actions[k - 1].child, p, before));
    }
  }

  // ---------------------------------------------------------------------
  // The visited set: each information set constrained once
  // ---------------------------------------------------------------------

  /** The information set of an opening. */
  function OpenedInfoSet(g: Game, o: Opening): int
    requires 0 <= o.node < |g.nodes|
  {
    g.nodes[o.node].infoSet
  }

  /**
   * The visited set is exactly the set of information sets opened so far,
   * every opening is at a decision node of the limited-lookahead player,
   * and no information set has been opened twice.
   */
  ghost predicate Consistent(g: Game, sf: SequenceForm, st: DeactState)
  {
    && (forall k :: 0 <= k < |st.openings| ==> OpponentNode(g, sf, st.openings[k].node))
    && (forall k, k' :: 0 <= k < k' < |st.openings| ==> OpenedInfoSet(g, st.openings[k]) != OpenedInfoSet(g, st.openings[k']))
    && st.visited == set k | 0 <= k < |st.openings| :: OpenedInfoSet(g, st.openings[k])
  }

  /** Opening a not yet visited information set keeps the state consistent. */
  lemma OpenKeepsConsistent(g: Game, sf: SequenceForm, id: int, parent: Var, st: DeactState)
    requires Consistent(g, sf, st) && OpponentNode(g, sf, id) && g.nodes[id].infoSet !in st.visited
    ensures Consistent(g, sf, DeactState(st.records, st.visited + {g.nodes[id].infoSet}, st.openings + [Opening(id, parent)]))
  {
    var os := st.openings + [Opening(id, parent)];
    var infoSet := g.nodes[id].infoSet;
    forall k | 0 <= k < |st.openings|
      ensures OpenedInfoSet(g, os[k]) != OpenedInfoSet(g, os[|st.openings|])
    {
      assert OpenedInfoSet(g, st.openings[k]) in st.visited;
    }
    var after := set k | 0 <= k < |os| :: OpenedInfoSet(g, os[k]);
    forall x | x in after
      ensures x in st.visited + {infoSet}
    {
      var k :| 0 <= k < |os| && OpenedInfoSet(g, os[k]) == x;
      if k < |st.openings| {
        assert os[k] == st.openings[k];
      }
    }
    forall x | x in st.visited + {infoSet}
      ensures x in after
    {
      if x == infoSet {
        assert OpenedInfoSet(g, os[|st.openings|]) == x;
      } else {
        var k :| 0 <= k < |st.openings| && OpenedInfoSet(g, st.openings[k]) == x;
        assert os[k] == st.openings[k];
      }
    }
  }

  lemma {:induction false} DeactWalkConsistent(g: Game, sf: SequenceForm, id: int, parent: Var, st: DeactState)
    requires WellFormed(g, sf) && 0 <= id < |g.nodes| && Consistent(g, sf, st)
    ensures Consistent(g, sf, DeactWalk(g, sf, id, parent, st))
    decreases |g.nodes| - id, 1, 0
  {
    var node := g.nodes[id];
    if node.leaf {
    } else if node.player == sf.playerNotToSolveFor && node.infoSet !in st.visited {
      var entered := DeactState(st.records, st.visited + {node.infoSet}, st.openings + [Opening(id, parent)]);
      OpenKeepsConsistent(g, sf, id, parent, st);
      DeactActionsConsistent(g, sf, id, parent, |node.actions|, entered);
    } else {
      DeactPassConsistent(g, sf, id, parent, |node.actions|, st);
    }
  }

  lemma {:induction false} DeactActionsConsistent(g: Game, sf: SequenceForm, id: int, parent: Var, k: int, st: DeactState)
    requires WellFormed(g, sf) && OpponentNode(g, sf, id) && 0 <= k <= |g.nodes[id].actions| && Consistent(g, sf, st)
    ensures Consistent(g, sf, DeactActions(g, sf, id, parent, k, st))
    decreases |g.nodes| - id, 0, k
  {
    if k > 0 {
      var v := Deact(DualSequence(g, sf, id, k - 1));
      DeactActionsConsistent(g, sf, id, parent, k - 1, st);
      DeactWalkConsistent(g, sf, g.nodes[id].actions[k - 1].child, v, DeactActions(g, sf, id, parent, k - 1, st));
    }
  }

  lemma {:induction false} DeactPassConsistent(g: Game, sf: SequenceForm, id: int, parent: Var, k: int, st: DeactState)
    requires WellFormed(g, sf) && 0 <= id < |g.nodes| && !g.nodes[id].leaf && 0 <= k <= |g.nodes[id].actions|
    requires Consistent(g, sf, st)
    ensures Consistent(g, sf, DeactPass(g, sf, id, parent, k, st))
    decreases |g.nodes| - id, 0, k
  {
    if k > 0 {
      var p := if g.nodes[id].player == sf.playerNotToSolveFor then Deact(DualSequence(g, sf, id, k - 1)) else parent;
      DeactPassConsistent(g, sf, id, parent, k - 1, st);
      DeactWalkConsistent(g, sf, g.nodes[id].actions[k - 1].child, p, DeactPass(g, sf, id, parent, k - 1, st));
    }
  }

  // ---------------------------------------------------------------------
  // Every reached information set is visited
  // ---------------------------------------------------------------------

  /** The information sets of the limited-lookahead player's decision nodes below node `id`. */
  function InfoSetsBelow(g: Game, sf: SequenceForm, id: int): set<int>
    requires ChildrenAfter(g) && 0 <= id < |g.nodes|
    decreases |g.nodes| - id, 1, 0
  {
    if g.nodes[id].leaf then {}
    else (if g.nodes[id].player == sf.playerNotToSolveFor then {g.nodes[id].infoSet} else {})
         + InfoSetsBelowActions(g, sf, id, |g.nodes[id].actions|)
  }

  function InfoSetsBelowActions(g: Game, sf: SequenceForm, id: int, k: int): set<int>
    requires ChildrenAfter(g) && 0 <= id < |g.nodes| && 0 <= k <= |g.nodes[id].actions|
    decreases |g.nodes| - id, 0, k
  {
    if k == 0 then {}
    else InfoSetsBelowActions(g, sf, id, k - 1) + InfoSetsBelow(g, sf, g.nodes[id].actions[k - 1].child)
  }

  /** The walk visits exactly the information sets below its start, on top of those visited before. */
  lemma {:induction false} DeactWalkVisits(g: Game, sf: SequenceForm, id: int, parent: Var, st: DeactState)
    requires WellFormed(g, sf) && 0 <= id < |g.nodes|
    ensures DeactWalk(g, sf, id, parent, st).visited == st.visited + InfoSetsBelow(g, sf, id)
    decreases |g.nodes| - id, 1, 0
  {
    var node := g.nodes[id];
    if node.leaf {
    } else if node.player == sf.playerNotToSolveFor && node.infoSet !in st.visited {
      var entered := DeactState(st.records, st.visited + {node.infoSet}, st.openings + [Opening(id, parent)]);
      DeactActionsVisits(g, sf, id, parent, |node.actions|, entered);
    } else {
      DeactPassVisits(g, sf, id, parent, |node.actions|, st);
    }
  }

  lemma {:induction false} DeactActionsVisits(g: Game, sf: SequenceForm, id: int, parent: Var, k: int, st: DeactState)
    requires WellFormed(g, sf) && OpponentNode(g, sf, id) && 0 <= k <= |g.nodes[id].actions|
    ensures DeactActions(g, sf, id, parent, k, st).visited == st.visited + InfoSetsBelowActions(g, sf, id, k)
    decreases |g.nodes| - id, 0, k
  {
    if k > 0 {
      var v := Deact(DualSequence(g, sf, id, k - 1));
      DeactActionsVisits(g, sf, id, parent, k - 1, st);
      DeactWalkVisits(g, sf, g.nodes[id].actions[k - 1].child, v, DeactActions(g, sf, id, parent, k - 1, st));
    }
  }

  lemma {:induction false} DeactPassVisits(g: Game, sf: SequenceForm, id: int, parent: Var, k: int, st: DeactState)
    requires WellFormed(g, sf) && 0 <= id < |g.nodes| && !g.nodes[id].leaf && 0 <= k <= |g.nodes[id].actions|
    ensures DeactPass(g, sf, id, parent, k, st).visited == st.visited + InfoSetsBelowActions(g, sf, id, k)
    decreases |g.nodes| - id, 0, k
  {
    if k > 0 {
      var p := if g.nodes[id].player == sf.playerNotToSolveFor then Deact(DualSequence(g, sf, id, k - 1)) else parent;
      DeactPassVisits(g, sf, id, parent, k - 1, st);
      DeactWalkVisits(g, sf, g.nodes[id].actions[k - 1].child, p, DeactPass(g, sf, id, parent, k - 1, st));
    }
  }

  // ---------------------------------------------------------------------
  // Every opened information set gets its constraints
  // ---------------------------------------------------------------------

  /** A deactivation variable of an existing dual sequence. */
  predicate DualVar(sf: SequenceForm, v: Var)
  {
    v.Deact? && 0 <= v.dualSeq < sf.numDualSequences
  }

  /** The constraints of opening `o` are in `rs`: `v >= parent` for each action, and the sum constraint. */
  ghost predicate BlockIn(g: Game, sf: SequenceForm, rs: seq<Record>, o: Opening)
    requires WellFormed(g, sf)
  {
    && OpponentNode(g, sf, o.node)
    && DualVar(sf, o.parent)
    && SumConstraint(g, sf, o.node, o.parent) in rs
    && forall j :: 0 <= j < |g.nodes[o.node].actions| ==>
         EdgeConstraint(Deact(DualSequence(g, sf, o.node, j)), o.parent) in rs
  }

  lemma BlockInExtends(g: Game, sf: SequenceForm, a: seq<Record>, b: seq<Record>, o: Opening)
    requires WellFormed(g, sf) && BlockIn(g, sf, a, o) && a <= b
    ensures BlockIn(g, sf, b, o)
  {
    InPrefix(a, b, SumConstraint(g, sf, o.node, o.parent));
    forall j | 0 <= j < |g.nodes[o.node].actions|
      ensures EdgeConstraint(Deact(DualSequence(g, sf, o.node, j)), o.parent) in b
    {
      InPrefix(a, b, EdgeConstraint(Deact(DualSequence(g, sf, o.node, j)), o.parent));
    }
  }

  /** After its first `k` actions, the edge constraint of each of them has been added. */
  lemma {:induction false} DeactActionsEdges(g: Game, sf: SequenceForm, id: int, parent: Var, k: int, st: DeactState)
    requires WellFormed(g, sf) && OpponentNode(g, sf, id) && 0 <= k <= |g.nodes[id].actions|
    ensures forall j :: 0 <= j < k ==>
      EdgeConstraint(Deact(DualSequence(g, sf, id, j)), parent) in DeactActions(g, sf, id, parent, k, st).records
  {
    if k > 0 {
      var v := Deact(DualSequence(g, sf, id, k - 1));
      var before := DeactActions(g, sf, id, parent, k - 1, st);
      var walked := DeactWalk(g, sf, g.nodes[id].actions[k - 1].child, v, before);
      var after := walked.records + [EdgeConstraint(v, parent)];
      DeactActionsEdges(g, sf, id, parent, k - 1, st);
      DeactWalkExtends(g, sf, g.nodes[id].actions[k - 1].child, v, before);
      PrefixTransitive(before.records, walked.records, after);
      forall j | 0 <= j < k
        ensures EdgeConstraint(Deact(DualSequence(g, sf, id, j)), parent) in after
      {
        if j < k - 1 {
          InPrefix(before.records, after, EdgeConstraint(Deact(DualSequence(g, sf, id, j)), parent));
        }
      }
    }
  }

  /** Every opening of `w` from index `n` on has its block in `w.records`. */
  ghost predicate BlocksFrom(g: Game, sf: SequenceForm, n: nat, w: DeactState)
    requires WellFormed(g, sf)
  {
    forall i :: n <= i < |w.openings| ==> BlockIn(g, sf, w.records, w.openings[i])
  }

  /** Every information set the walk opens has its edge and sum constraints in the resulting model. */
  lemma {:induction false} DeactWalkBlocks(g: Game, sf: SequenceForm, id: int, parent: Var, st: DeactState)
    requires WellFormed(g, sf) && 0 <= id < |g.nodes| && DualVar(sf, parent)
    ensures BlocksFrom(g, sf, |st.openings|, DeactWalk(g, sf, id, parent, st))
    decreases |g.nodes| - id, 1, 0
  {
    var w := DeactWalk(g, sf, id, parent, st);
    if g.nodes[id].leaf {
    } else if g.nodes[id].player == sf.playerNotToSolveFor && g.nodes[id].infoSet !in st.visited {
      var n := |g.nodes[id].actions|;
      var entered := DeactState(st.records, st.visited + {g.nodes[id].infoSet}, st.openings + [Opening(id, parent)]);
      var st' := DeactActions(g, sf, id, parent, n, entered);
      assert w.records == st'.records + [SumConstraint(g, sf, id, parent)] && w.openings == st'.openings;
      DeactActionsExtends(g, sf, id, parent, n, entered);
      DeactActionsEdges(g, sf, id, parent, n, entered);
      DeactActionsBlocks(g, sf, id, parent, n, entered);
      assert BlocksFrom(g, sf, |st.openings| + 1, st');
      forall k | |st.openings| <= k < |w.openings|
        ensures BlockIn(g, sf, w.records, w.openings[k])
      {
        if k == |st.openings| {
          assert w.openings[k] == entered.openings[k] == Opening(id, parent);
          BlockInExtends(g, sf, st'.records + [SumConstraint(g, sf, id, parent)], w.records, Opening(id, parent));
        } else {
          assert BlockIn(g, sf, st'.records, st'.openings[k]);
          BlockInExtends(g, sf, st'.records, w.records, w.openings[k]);
        }
      }
    } else {
      DeactPassBlocks(g, sf, id, parent, |g.nodes[id].actions|, st);
    }
  }

  lemma {:induction false} DeactActionsBlocks(g: Game, sf: SequenceForm, id: int, parent: Var, k: int, st: DeactState)
    requires WellFormed(g, sf) && OpponentNode(g, sf, id) && 0 <= k <= |g.nodes[id].actions|
    ensures BlocksFrom(g, sf, |st.openings|, DeactActions(g, sf, id, parent, k, st))
    decreases |g.nodes| - id, 0, k
  {
    if k > 0 {
      var v := Deact(DualSequence(g, sf, id, k - 1));
      var before := DeactActions(g, sf, id, parent, k - 1, st);
      var walked := DeactWalk(g, sf, g.nodes[id].actions[k - 1].child, v, before);
      var w := DeactActions(g, sf, id, parent, k, st);
      assert w.records == walked.records + [EdgeConstraint(v, parent)] && w.openings == walked.openings;
      DeactActionsBlocks(g, sf, id, parent, k - 1, st);
      DeactWalkExtends(g, sf, g.nodes[id].actions[k - 1].child, v, before);
      DeactWalkBlocks(g, sf, g.nodes[id].actions[k - 1].child, v, before);
      PrefixTransitive(before.records, walked.records, w.records);
      forall i | |st.openings| <= i < |w.openings|
        ensures BlockIn(g, sf, w.records, w.openings[i])
      {
        if i < |before.openings| {
          assert w.openings[i] == before.openings[i];
          BlockInExtends(g, sf, before.records, w.records, w.openings[i]);
        } else {
          BlockInExtends(g, sf, walked.records, w.records, w.openings[i]);
        }
      }
    }
  }

  lemma {:induction false} DeactPassBlocks(g: Game, sf: SequenceForm, id: int, parent: Var, k: int, st: DeactState)
    requires WellFormed(g, sf) && 0 <= id < |g.nodes| && !g.nodes[id].leaf && 0 <= k <= |g.nodes[id].actions|
    requires DualVar(sf, parent)
    ensures BlocksFrom(g, sf, |st.openings|, DeactPass(g, sf, id, parent, k, st))
    decreases |g.nodes| - id, 0, k
  {
    if k > 0 {
      var p := if g.nodes[id].player == sf.playerNotToSolveFor then Deact(DualSequence(g, sf, id, k - 1)) else parent;
      var before := DeactPass(g, sf, id, parent, k - 1, st);
      var w := DeactPass(g, sf, id, parent, k, st);
      DeactPassBlocks(g, sf, id, parent, k - 1, st);
      DeactWalkExtends(g, sf, g.nodes[id].actions[k - 1].child, p, before);
      DeactWalkBlocks(g, sf, g.nodes[id].actions[k - 1].child, p, before);
      forall i | |st.openings| <= i < |w.openings|
        ensures BlockIn(g, sf, w.records, w.openings[i])
      {
        if i < |before.openings| {
          assert w.openings[i] == before.openings[i];
          BlockInExtends(g, sf, before.records, w.records, w.openings[i]);
        }
      }
    }
  }

  // ---------------------------------------------------------------------
  // What a solved block means
  // ---------------------------------------------------------------------

  /**
   * A sum of binary variables, each with coefficient 1, reaches the number of
   * its terms unless one of the variables is 0.
   */
  lemma {:induction false} UnitSumOrZero(ts: seq<Term>, val: Var -> real)
    requires forall i :: 0 <= i < |ts| ==> ts[i].coef == 1.0 && (val(ts[i].v) == 0.0 || val(ts[i].v) == 1.0)
    ensures TermsValue(ts, val) == |ts| as real || exists i :: 0 <= i < |ts| && val(ts[i].v) == 0.0
  {
    if ts != [] {
      var last := |ts| - 1;
      UnitSumOrZero(ts[..last], val);
      if val(ts[last].v) == 0.0 {
      } else if exists i :: 0 <= i < last && val(ts[..last][i].v) == 0.0 {
        var i :| 0 <= i < last && val(ts[..last][i].v) == 0.0;
        assert ts[i] == ts[..last][i];
      }
    }
  }

  /**
   * Under a solution with binary deactivation variables, the constraints of
   * an opening say: if the sequence leading to the information set is
   * deactivated, so is every action there; if it is active, at least one
   * action there stays active.
   */
  lemma SolvedBlockMeaning(g: Game, sf: SequenceForm, rs: seq<Record>, o: Opening, val: Var -> real)
    requires WellFormed(g, sf) && BlockIn(g, sf, rs, o) && AllSatisfied(rs, val)
    requires val(o.parent) == 0.0 || val(o.parent) == 1.0
    requires forall j :: 0 <= j < |g.nodes[o.node].actions| ==>
      val(Deact(DualSequence(g, sf, o.node, j))) == 0.0 || val(Deact(DualSequence(g, sf, o.node, j))) == 1.0
    ensures val(o.parent) == 1.0 ==>
      forall j :: 0 <= j < |g.nodes[o.node].actions| ==> val(Deact(DualSequence(g, sf, o.node, j))) == 1.0
    ensures val(o.parent) == 0.0 ==>
      exists j :: 0 <= j < |g.nodes[o.node].actions| && val(Deact(DualSequence(g, sf, o.node, j))) == 0.0
  {
    var n := |g.nodes[o.node].actions|;
    forall j | 0 <= j < n
      ensures val(Deact(DualSequence(g, sf, o.node, j))) >= val(o.parent)
    {
      var e := EdgeConstraint(Deact(DualSequence(g, sf, o.node, j)), o.parent);
      SatisfiedMember(rs, e, val);
      assert Holds(e.c, val);
    }
    if val(o.parent) == 0.0 {
      var ts := ActionDeactTerms(g, sf, o.node);
      UnitSumOrZero(ts, val);
      TermsValueAppend(ts, [Term(-1.0, o.parent)], val);
      SatisfiedMember(rs, SumConstraint(g, sf, o.node, o.parent), val);
      assert Holds(SumConstraint(g, sf, o.node, o.parent).c, val);
      var i :| 0 <= i < n && val(ts[i].v) == 0.0;
      assert ts[i].v == Deact(DualSequence(g, sf, o.node, i));
    }
  }
}
