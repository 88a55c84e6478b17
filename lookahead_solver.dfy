/**
 * The limited-lookahead opponent builder as the object it is: the
 * node-evaluation table it normalises in place, the payoff range and the
 * per-sequence maximum evaluation it fills in while walking the tree, and
 * the model it extends record by record. Each method is proved against the
 * specification functions of the modules it imports.
 */
module LookAheadSolver {
  import opened ConstraintLog
  import opened LookAheadGame
  import opened LookAheadEvaluation
  import opened LookAheadDeactivation
  import opened LookAheadIncentive

  /** `D0 == 0`: the empty sequence of the limited-lookahead player is never deactivated. */
  function EmptySequenceActive(): Record
  {
    AddConstr(Constraint(VarExpr(Deact(0)), Eq, ConstExpr(0.0)))
  }

  /** The records `setUpModel` adds before the deactivation walk, for `n` dual sequences and payoff range `c`. */
  function SetUpPrefix(n: nat, c: real): seq<Record>
  {
    BooleanDualVarDecls(n) + DualRemoval(n, c) + [EmptySequenceActive()]
  }

  /** The deactivation walk of `setUpModel`, from the root under `D0` with nothing visited, on top of `rs` and the prefix. */
  function SetUpWalk(g: Game, sf: SequenceForm, rs: seq<Record>, c: real): DeactState
    requires WellFormed(g, sf)
  {
    DeactWalk(g, sf, g.root, Deact(0), DeactState(rs + SetUpPrefix(sf.numDualSequences, c), {}, []))
  }

  /** What an opening of the walk means in a solution: a deactivated parent deactivates every action, an active one keeps one active. */
  ghost predicate OpeningHolds(g: Game, sf: SequenceForm, o: Opening, val: Var -> real)
    requires WellFormed(g, sf) && OpponentNode(g, sf, o.node)
  {
    && (val(o.parent) == 1.0 ==>
          forall j :: 0 <= j < |g.nodes[o.node].actions| ==> val(Deact(DualSequence(g, sf, o.node, j))) == 1.0)
    && (val(o.parent) == 0.0 ==>
          exists j :: 0 <= j < |g.nodes[o.node].actions| && val(Deact(DualSequence(g, sf, o.node, j))) == 0.0)
  }

  /**
   * In any solution of the model `setUpModel` builds: the empty sequence is
   * active; every information set of the limited-lookahead player in the
   * tree is constrained, each exactly once; and at each of them, a
   * deactivated parent sequence deactivates every action while an active one
   * keeps at least one action active.
   */
  lemma SetUpModelSolved(g: Game, sf: SequenceForm, rs: seq<Record>, c: real, val: Var -> real)
    requires WellFormed(g, sf) && AllSatisfied(SetUpWalk(g, sf, rs, c).records, val)
    ensures val(Deact(0)) == 0.0
    ensures SetUpWalk(g, sf, rs, c).visited == InfoSetsBelow(g, sf, g.root)
    ensures Consistent(g, sf, SetUpWalk(g, sf, rs, c))
    ensures forall k :: 0 <= k < |SetUpWalk(g, sf, rs, c).openings| ==>
      OpponentNode(g, sf, SetUpWalk(g, sf, rs, c).openings[k].node) && OpeningHolds(g, sf, SetUpWalk(g, sf, rs, c).openings[k], val)
  {
    var n := sf.numDualSequences;
    var pre := rs + SetUpPrefix(n, c);
    var st := DeactState(pre, {}, []);
    var w := SetUpWalk(g, sf, rs, c);
    DeactWalkExtends(g, sf, g.root, Deact(0), st);
    DeactWalkVisits(g, sf, g.root, Deact(0), st);
    DeactWalkConsistent(g, sf, g.root, Deact(0), st);
    DeactWalkBlocks(g, sf, g.root, Deact(0), st);
    assert pre[|pre| - 1] == EmptySequenceActive();
    InPrefix(pre, w.records, EmptySequenceActive());
    SatisfiedMember(w.records, EmptySequenceActive(), val);
    SingletonTermsValue(Term(1.0, Deact(0)), val);
    forall q | 0 <= q < n
      ensures val(Deact(q)) == 0.0 || val(Deact(q)) == 1.0
    {
      SetUpDeclaresDeact(rs, n, c, q);
      InPrefix(pre, w.records, AddVar(Deact(q), 0.0, 1.0, Binary));
      SatisfiedMember(w.records, AddVar(Deact(q), 0.0, 1.0, Binary), val);
    }
    forall k | 0 <= k < |w.openings|
      ensures OpponentNode(g, sf, w.openings[k].node) && OpeningHolds(g, sf, w.openings[k], val)
    {
      assert BlockIn(g, sf, w.records, w.openings[k]);
      SolvedBlockMeaning(g, sf, w.records, w.openings[k], val);
    }
  }

  /** The prefix declares `D<q>` as binary for every `q < n`. */
  lemma SetUpDeclaresDeact(rs: seq<Record>, n: nat, c: real, q: int)
    requires 0 <= q < n
    ensures AddVar(Deact(q), 0.0, 1.0, Binary) in rs + SetUpPrefix(n, c)
  {
    BooleanDualVarsDeclaredOnce(n, q);
    assert (rs + SetUpPrefix(n, c))[|rs| + q] == BooleanDualVarDecls(n)[q];
  }

  class LimitedLookAheadOpponentSolver {
    /** The game tree and the sequence form of the base model. */
    const game: Game
    const sf: SequenceForm
    /** The caller's heuristic evaluation of each node, normalised in place. */
    const nodeEvaluationTable: array<real>
    const lookAhead: int
    /** How strongly an action must be preferred to count as incentivised (used only by the disabled incentive constraints). */
    const epsilon: real

    var maxPayoff: real
    var minPayoff: real
    /** Per dual sequence, the largest evaluation on the look-ahead frontier below it. */
    var maxEvaluationValueForSequence: array<real>
    /** What the builder has added to the engine's model, in order. */
    var model: seq<Record>
    /** The number of anonymous variables created so far. */
    var nextAux: nat

    /** The tree, the sequence form and the evaluation table fit together. */
    ghost predicate Ready()
    {
      WellFormed(game, sf) && nodeEvaluationTable.Length == |game.nodes|
    }

    /** Besides, the per-sequence table has one entry per dual sequence and is a different array from the evaluation table. */
    ghost predicate Initialized()
      reads this
    {
      && Ready()
      && maxEvaluationValueForSequence.Length == sf.numDualSequences
      && maxEvaluationValueForSequence != nodeEvaluationTable
    }

    /**
     * Keeps the caller's table, shifts it to be non-negative and builds the
     * model: afterwards the table, the payoff range, the per-sequence maxima
     * and the model are those the specification functions give.
     */
    constructor(g: Game, sf: SequenceForm, table: array<real>, lookAhead: int, epsilon: real)
      requires WellFormed(g, sf) && table.Length == |g.nodes|
      modifies table
      ensures game == g && this.sf == sf && nodeEvaluationTable == table && this.lookAhead == lookAhead && this.epsilon == epsilon
      ensures table[..] == NonNegativeShift(old(table[..]))
      ensures maxPayoff == MaxFold(-DoubleMax, LeafValues(g, g.root)) && minPayoff == MinFold(DoubleMax, LeafValues(g, g.root))
      ensures Initialized() && fresh(maxEvaluationValueForSequence)
      ensures maxEvaluationValueForSequence[..] == ApplySeeds(g, table[..], lookAhead, Zeros(sf.numDualSequences), Seeds(g, sf))
      ensures model == SetUpWalk(g, sf, [], maxPayoff - minPayoff).records
    {
      game := g;
      this.sf := sf;
      nodeEvaluationTable := table;
      this.lookAhead := lookAhead;
      this.epsilon := epsilon;
      maxPayoff := 0.0;
      minPayoff := 0.0;
      maxEvaluationValueForSequence := new real[0];
      model := [];
      nextAux := 0;
      new;
      MakeNodeEvaluationTableNonNegative();
      SetUpModel();
    }

    /** Raises every entry by `|min(0, smallest entry)|`, so that none is negative. */
    method MakeNodeEvaluationTableNonNegative()
      modifies nodeEvaluationTable
      ensures nodeEvaluationTable[..] == NonNegativeShift(old(nodeEvaluationTable[..]))
    {
      var t := nodeEvaluationTable;
      var minValue := 0.0;
      var i := 0;
      while i < t.Length
        invariant 0 <= i <= t.Length
        invariant minValue == MinFold(0.0, t[..i])
      {
        assert t[..i + 1][..i] == t[..i];
        if t[i] < minValue {
          minValue := t[i];
        }
        i := i + 1;
      }
      assert t[..] == t[..t.Length];
      var shift := Abs(minValue);
      i := 0;
      while i < t.Length
        invariant 0 <= i <= t.Length
        invariant forall j :: 0 <= j < i ==> t[j] == old(t[j]) + shift
        invariant forall j :: i <= j < t.Length ==> t[j] == old(t[j])
      {
        t[i] := t[i] + shift;
        i := i + 1;
      }
    }

    /** Builds the model, in the order of the source. */
    method SetUpModel()
      requires Ready()
      modifies this
      ensures Initialized() && fresh(maxEvaluationValueForSequence)
      ensures maxPayoff == MaxFold(-DoubleMax, LeafValues(game, game.root))
      ensures minPayoff == MinFold(DoubleMax, LeafValues(game, game.root))
      ensures maxEvaluationValueForSequence[..]
        == ApplySeeds(game, nodeEvaluationTable[..], lookAhead, Zeros(sf.numDualSequences), Seeds(game, sf))
      ensures model == SetUpWalk(game, sf, old(model), maxPayoff - minPayoff).records
      ensures nextAux == old(nextAux)
    {
      InitializeDataStructures();
      CreateBooleanDualVars();
      ComputeMaxMinPayoff(game.root);
      ComputeMaxEvaluation();
      AddDualConstraintRemoval();
      model := model + [EmptySequenceActive()];
      assert model == old(model) + SetUpPrefix(sf.numDualSequences, maxPayoff - minPayoff);
      var visited, openings := CreateDeactivationSequenceFormConstraints(game.root, Deact(0), {}, []);
    }

    /** The payoff range starts empty and every per-sequence maximum at the lowest value. */
    method InitializeDataStructures()
      requires Ready()
      modifies this`maxPayoff, this`minPayoff, this`maxEvaluationValueForSequence
      ensures maxPayoff == -DoubleMax && minPayoff == DoubleMax
      ensures Initialized() && fresh(maxEvaluationValueForSequence)
      ensures forall q :: 0 <= q < sf.numDualSequences ==> maxEvaluationValueForSequence[q] == -DoubleMax
    {
      var a := new real[sf.numDualSequences];
      var q := 0;
      while q < a.Length
        invariant 0 <= q <= a.Length
        invariant forall q' :: 0 <= q' < q ==> a[q'] == -DoubleMax
      {
        a[q] := -DoubleMax;
        q := q + 1;
      }
      maxPayoff := -DoubleMax;
      minPayoff := DoubleMax;
      maxEvaluationValueForSequence := a;
    }

    /** Declares the binary `D<q>` and then the binary `T<q>` of every dual sequence. */
    method CreateBooleanDualVars()
      modifies this`model
      ensures model == old(model) + BooleanDualVarDecls(sf.numDualSequences)
    {
      model := model + BooleanDualVarDecls(sf.numDualSequences);
    }

    /** Widens the payoff range by the payoffs of the leaves below `nodeId`. */
    method ComputeMaxMinPayoff(nodeId: int)
      requires Ready() && 0 <= nodeId < |game.nodes|
      modifies this`maxPayoff, this`minPayoff
      ensures maxPayoff == MaxFold(old(maxPayoff), LeafValues(game, nodeId))
      ensures minPayoff == MinFold(old(minPayoff), LeafValues(game, nodeId))
      decreases |game.nodes| - nodeId
    {
      var node := game.nodes[nodeId];
      if node.leaf {
        assert [node.value][..0] == [];
        if node.value > maxPayoff {
          maxPayoff := node.value;
        }
        if node.value < minPayoff {
          minPayoff := node.value;
        }
        return;
      }
      var k := 0;
      while k < |node.actions|
        invariant 0 <= k <= |node.actions|
        invariant maxPayoff == MaxFold(old(maxPayoff), LeafValuesBelow(game, nodeId, k))
        invariant minPayoff == MinFold(old(minPayoff), LeafValuesBelow(game, nodeId, k))
      {
        var child := node.actions[k].child;
        ComputeMaxMinPayoff(child);
        MaxFoldAppend(old(maxPayoff), LeafValuesBelow(game, nodeId, k), LeafValues(game, child));
        MinFoldAppend(old(minPayoff), LeafValuesBelow(game, nodeId, k), LeafValues(game, child));
        k := k + 1;
      }
    }

    /**
     * Resets every per-sequence maximum to 0, then raises sequence 0 by the
     * frontier below the root and each action's sequence by the frontier
     * below its child.
     */
    method ComputeMaxEvaluation()
      requires Initialized()
      modifies maxEvaluationValueForSequence
      ensures maxEvaluationValueForSequence[..]
        == ApplySeeds(game, nodeEvaluationTable[..], lookAhead, Zeros(sf.numDualSequences), Seeds(game, sf))
    {
      var a := maxEvaluationValueForSequence;
      var q := 0;
      while q < a.Length
        invariant 0 <= q <= a.Length
        invariant forall q' :: 0 <= q' < q ==> a[q'] == 0.0
      {
        a[q] := 0.0;
        q := q + 1;
      }
      ghost var zeros := a[..];
      assert zeros == Zeros(sf.numDualSequences);
      ghost var eval := nodeEvaluationTable[..];
      RootSeed(game, sf, eval, lookAhead, zeros);
      ComputeMaxEvaluationForAction(game.root, 0, 0);
      var k := 0;
      while k < |game.infoSets|
        invariant 0 <= k <= |game.infoSets|
        invariant a[..] == AfterInfoSets(game, sf, eval, lookAhead, zeros, k)
      {
        ghost var before := a[..];
        MaxEvaluationForInfoSet(k);
        NextInfoSetSeeds(game, sf, eval, lookAhead, zeros, k, before, a[..]);
        k := k + 1;
      }
      AllInfoSetSeeds(game, sf, eval, lookAhead, zeros);
    }

    /** The loop over the nodes of information set `k` in `computeMaxEvaluation`. */
    method MaxEvaluationForInfoSet(k: int)
      requires Initialized() && 0 <= k < |game.infoSets|
      modifies maxEvaluationValueForSequence
      ensures maxEvaluationValueForSequence[..]
        == AfterNodes(game, sf, nodeEvaluationTable[..], lookAhead, old(maxEvaluationValueForSequence[..]), k, |game.infoSets[k]|)
    {
      var a := maxEvaluationValueForSequence;
      ghost var eval := nodeEvaluationTable[..];
      ghost var start := a[..];
      var i := 0;
      while i < |game.infoSets[k]|
        invariant 0 <= i <= |game.infoSets[k]|
        invariant a[..] == AfterNodes(game, sf, eval, lookAhead, start, k, i)
      {
        ghost var before := a[..];
        MaxEvaluationForNode(k, i);
        NextNodeSeeds(game, sf, eval, lookAhead, start, k, i, before, a[..]);
        i := i + 1;
      }
    }

    /** The loop over the actions of node `i` of information set `k` in `computeMaxEvaluation`. */
    method MaxEvaluationForNode(k: int, i: int)
      requires Initialized() && 0 <= k < |game.infoSets| && 0 <= i < |game.infoSets[k]|
      modifies maxEvaluationValueForSequence
      ensures maxEvaluationValueForSequence[..]
        == AfterActions(game, sf, nodeEvaluationTable[..], lookAhead, old(maxEvaluationValueForSequence[..]), k, i, |game.nodes[game.infoSets[k][i]].actions|)
    {
      var a := maxEvaluationValueForSequence;
      ghost var eval := nodeEvaluationTable[..];
      ghost var start := a[..];
      var node := game.nodes[game.infoSets[k][i]];
      var j := 0;
      while j < |node.actions|
        invariant 0 <= j <= |node.actions|
        invariant a[..] == AfterActions(game, sf, eval, lookAhead, start, k, i, j)
      {
        var sequenceId := sf.dualSequence[(k, node.actions[j].name)];
        ghost var before := a[..];
        ComputeMaxEvaluationForAction(node.actions[j].child, sequenceId, 1);
        NextActionSeed(game, sf, eval, lookAhead, start, k, i, j, before, a[..]);
        j := j + 1;
      }
    }

    /** Raises the entry of `sequenceId` to the largest evaluation on the frontier below `nodeId`, entered at `depth`. */
    method ComputeMaxEvaluationForAction(nodeId: int, sequenceId: int, depth: int)
      requires Initialized() && 0 <= nodeId < |game.nodes| && 0 <= sequenceId < maxEvaluationValueForSequence.Length
      modifies maxEvaluationValueForSequence
      ensures maxEvaluationValueForSequence[..] == old(maxEvaluationValueForSequence[..])[sequenceId :=
        FrontierMax(game, nodeEvaluationTable[..], lookAhead, old(maxEvaluationValueForSequence[..])[sequenceId], nodeId, depth)]
      decreases |game.nodes| - nodeId
    {
      var a := maxEvaluationValueForSequence;
      ghost var eval := nodeEvaluationTable[..];
      ghost var start := a[sequenceId];
      var node := game.nodes[nodeId];
      if depth == lookAhead || node.leaf {
        FrontierMaxAtFrontier(game, eval, lookAhead, start, nodeId, depth);
        if nodeEvaluationTable[nodeId] > a[sequenceId] {
          a[sequenceId] := nodeEvaluationTable[nodeId];
        }
        return;
      }
      FrontierMaxInner(game, eval, lookAhead, start, nodeId, depth);
      FrontierBelowMaxNone(game, eval, lookAhead, start, nodeId, depth);
      var k := 0;
      while k < |node.actions|
        invariant 0 <= k <= |node.actions|
        invariant a[..] == old(a[..])[sequenceId := FrontierBelowMax(game, eval, lookAhead, start, nodeId, depth, k)]
      {
        FrontierBelowMaxStep(game, eval, lookAhead, start, nodeId, depth, k);
        ComputeMaxEvaluationForAction(node.actions[k].child, sequenceId, depth + 1);
        k := k + 1;
      }
    }

    /** Gives the dual constraint of every sequence but the empty one the coefficient `maxPayoff - minPayoff` on its deactivation variable. */
    method AddDualConstraintRemoval()
      modifies this`model
      ensures model == old(model) + DualRemoval(sf.numDualSequences, maxPayoff - minPayoff)
    {
      var n := sf.numDualSequences;
      ghost var c := maxPayoff - minPayoff;
      var sequenceId := 1;
      while sequenceId < n
        invariant 1 <= sequenceId <= if n == 0 then 1 else n
        invariant model == old(model) + seq(sequenceId - 1, i => ChgCoeff(i + 1, Deact(i + 1), c))
      {
        var biggestDifferential := maxPayoff - minPayoff;
        model := model + [ChgCoeff(sequenceId, Deact(sequenceId), biggestDifferential)];
        sequenceId := sequenceId + 1;
      }
    }

    /**
     * The deactivation walk from `currentNodeId` under `parentSequence`, with
     * the shared visited set passed in and handed back; `openings` records,
     * for the proofs, which information sets were constrained and under which
     * parent.
     */
    method CreateDeactivationSequenceFormConstraints(currentNodeId: int, parentSequence: Var, visited: set<int>, ghost openings: seq<Opening>)
      returns (visited': set<int>, ghost openings': seq<Opening>)
      requires Ready() && 0 <= currentNodeId < |game.nodes|
      modifies this`model
      ensures DeactState(model, visited', openings')
        == DeactWalk(game, sf, currentNodeId, parentSequence, DeactState(old(model), visited, openings))
      decreases |game.nodes| - currentNodeId, 1
    {
      var node := game.nodes[currentNodeId];
      if node.leaf {
        return visited, openings;
      }
      if node.player == sf.playerNotToSolveFor && node.infoSet !in visited {
        visited', openings' := DeactivateInformationSet(currentNodeId, parentSequence, visited, openings);
      } else {
        visited', openings' := visited, openings;
        var k := 0;
        while k < |node.actions|
          invariant 0 <= k <= |node.actions|
          invariant DeactState(model, visited', openings')
            == DeactPass(game, sf, currentNodeId, parentSequence, k, DeactState(old(model), visited, openings))
        {
          var p := parentSequence;
          if node.player == sf.playerNotToSolveFor {
            p := Deact(DualSequence(game, sf, currentNodeId, k));
          }
          visited', openings' := CreateDeactivationSequenceFormConstraints(node.actions[k].child, p, visited', openings');
          k := k + 1;
        }
      }
    }

    /** The branch of the walk that constrains the information set of decision node `id`, not yet visited. */
    method DeactivateInformationSet(id: int, parentSequence: Var, visited: set<int>, ghost openings: seq<Opening>)
      returns (visited': set<int>, ghost openings': seq<Opening>)
      requires Ready() && OpponentNode(game, sf, id) && game.nodes[id].infoSet !in visited
      modifies this`model
      ensures DeactState(model, visited', openings')
        == DeactWalk(game, sf, id, parentSequence, DeactState(old(model), visited, openings))
      decreases |game.nodes| - id, 0
    {
      var node := game.nodes[id];
      ghost var entered := DeactState(model, visited + {node.infoSet}, openings + [Opening(id, parentSequence)]);
      visited', openings' := visited + {node.infoSet}, openings + [Opening(id, parentSequence)];
      var sum: seq<Term> := [];
      var k := 0;
      while k < |node.actions|
        invariant 0 <= k <= |node.actions|
        invariant DeactState(model, visited', openings') == DeactActions(game, sf, id, parentSequence, k, entered)
        invariant sum == ActionDeactTerms(game, sf, id)[..k]
      {
        var v := Deact(DualSequence(game, sf, id, k));
        assert ActionDeactTerms(game, sf, id)[..k + 1] == sum + [Term(1.0, v)];
        sum := sum + [Term(1.0, v)];
        visited', openings' := CreateDeactivationSequenceFormConstraints(node.actions[k].child, v, visited', openings');
        model := model + [EdgeConstraint(v, parentSequence)];
        k := k + 1;
      }
      assert sum == ActionDeactTerms(game, sf, id);
      sum := sum + [Term(-1.0, parentSequence)];
      model := model + [AddConstr(Constraint(LinExpr(sum, 0.0), Le, ConstExpr((|node.actions| - 1) as real)))];
    }

    /**
     * The walk below `currentNodeId` that adds the value of the look-ahead
     * frontier to the action expression `terms`, under activation variable
     * `parentSequence`; the shared map from information set to its choice
     * variables is passed in and handed back.
     */
    method FillIncentivizedActionExpression(terms: seq<Term>, parentSequence: Var, currentNodeId: int,
                                            varActiveMap: map<int, map<string, Var>>, depth: int)
      returns (terms': seq<Term>, varActiveMap': map<int, map<string, Var>>)
      requires Ready() && 0 <= currentNodeId < |game.nodes| && ActiveCovers(game, sf, varActiveMap)
      modifies this`model, this`nextAux
      ensures FillState(model, nextAux, terms', varActiveMap')
        == FillWalk(game, sf, nodeEvaluationTable[..], lookAhead, parentSequence, currentNodeId, depth,
                    FillState(old(model), old(nextAux), terms, varActiveMap))
      decreases |game.nodes| - currentNodeId, 1
    {
      var node := game.nodes[currentNodeId];
      if depth == lookAhead || node.leaf {
        var nodeValueVar := Aux(nextAux);
        nextAux := nextAux + 1;
        model := model + FrontierRecords(sf, nodeEvaluationTable[..], currentNodeId, nodeValueVar, parentSequence);
        terms' := terms + [Term(1.0, nodeValueVar)];
        varActiveMap' := varActiveMap;
        return;
      }
      var active := varActiveMap;
      if node.player == sf.playerNotToSolveFor && node.infoSet !in active {
        active := OpenInformationSet(currentNodeId, active, terms);
      }
      ghost var entered := FillState(model, nextAux, terms, active);
      terms' := terms;
      var k := 0;
      while k < |node.actions|
        invariant 0 <= k <= |node.actions|
        invariant ActiveCovers(game, sf, active) && (OpponentNode(game, sf, currentNodeId) ==> node.infoSet in active)
        invariant FillState(model, nextAux, terms', active)
          == FillChildren(game, sf, nodeEvaluationTable[..], lookAhead, parentSequence, currentNodeId, depth, k, entered)
      {
        ghost var before := FillState(model, nextAux, terms', active);
        var newParentSequence := parentSequence;
        if node.player == sf.playerNotToSolveFor {
          newParentSequence := active[node.infoSet][node.actions[k].name];
        }
        terms', active := FillIncentivizedActionExpression(terms', newParentSequence, node.actions[k].child, active, depth + 1);
        FillChildrenNext(game, sf, nodeEvaluationTable[..], lookAhead, parentSequence, currentNodeId, depth, k, entered, before, FillState(model, nextAux, terms', active));
        k := k + 1;
      }
      varActiveMap' := active;
    }

    /**
     * Opens the information set of decision node `id`: one binary choice
     * variable per action, constrained to sum to 1, and the map from action
     * name to choice variable entered for the set.
     */
    method OpenInformationSet(id: int, varActiveMap: map<int, map<string, Var>>, ghost terms: seq<Term>)
      returns (varActiveMap': map<int, map<string, Var>>)
      requires Ready() && OpponentNode(game, sf, id) && ActiveCovers(game, sf, varActiveMap)
      modifies this`model, this`nextAux
      ensures FillState(model, nextAux, terms, varActiveMap')
        == OpenChoice(game, sf, id, FillState(old(model), old(nextAux), terms, varActiveMap))
    {
      var node := game.nodes[id];
      var base := nextAux;
      var actionMap: map<string, Var> := map[];
      var sum: seq<Term> := [];
      var j := 0;
      while j < |node.actions|
        invariant 0 <= j <= |node.actions| && nextAux == base + j
        invariant model == old(model) + ChoiceDecls(base, j)
        invariant sum == ChoiceTerms(base, j)
        invariant actionMap == ChoiceMap(node.actions, base, j)
      {
        var actionActiveVar := Aux(nextAux);
        ChoiceBlockSnoc(base, j);
        ChoiceMapSnoc(node.actions, base, j);
        nextAux := nextAux + 1;
        model := model + [AddVar(actionActiveVar, 0.0, 1.0, Binary)];
        sum := sum + [Term(1.0, actionActiveVar)];
        actionMap := actionMap[node.actions[j].name := actionActiveVar];
        j := j + 1;
      }
      ChoiceBlockClosed(old(model), base, j);
      model := model + [AddConstr(Constraint(LinExpr(sum, 0.0), Eq, ConstExpr(1.0)))];
      varActiveMap' := varActiveMap[node.infoSet := actionMap];
      OpenChoiceParts(game, sf, id, FillState(old(model), base, terms, varActiveMap), FillState(model, nextAux, terms, varActiveMap'));
    }

    /**
     * The expression for the value of action `a` (a position among the
     * actions of the set's first node) of information set `k`: for each node
     * of the set, a gate variable equal to `1 - D<q>` for the action's
     * sequence `q`, then the walk below the node's action of the same name.
     */
    method GetIncentivizedActionExpression(k: int, a: int) returns (actionExpr: seq<Term>)
      requires Ready() && IncentiveArgs(game, sf, nodeEvaluationTable[..], k, a)
      modifies this`model, this`nextAux
      ensures var r := IncentiveExpression(game, sf, nodeEvaluationTable[..], lookAhead, k, a, old(model), old(nextAux));
        actionExpr == r.terms && model == r.records && nextAux == r.nextAux
    {
      ghost var eval := nodeEvaluationTable[..];
      var name := game.nodes[game.infoSets[k][0]].actions[a].name;
      var sequenceId := sf.dualSequence[(k, name)];
      var exprMap: map<int, map<string, Var>> := map[];
      actionExpr := [];
      var i := 0;
      while i < |game.infoSets[k]|
        invariant 0 <= i <= |game.infoSets[k]|
        invariant FillState(model, nextAux, actionExpr, exprMap) == IncentivePrefix(game, sf, eval, lookAhead, k, a, i, old(model), old(nextAux))
      {
        ghost var before := FillState(model, nextAux, actionExpr, exprMap);
        var node := game.nodes[game.infoSets[k][i]];
        var j := IncentiveActionForNode(node.actions, name);
        var actionActiveVar := Aux(nextAux);
        nextAux := nextAux + 1;
        model := model + ActivationRecords(actionActiveVar, sequenceId);
        actionExpr, exprMap := FillIncentivizedActionExpression(actionExpr, actionActiveVar, node.actions[j].child, exprMap, 1);
        IncentivePrefixStep(game, sf, eval, lookAhead, k, a, i, old(model), old(nextAux), before, j, sequenceId, FillState(model, nextAux, actionExpr, exprMap));
        i := i + 1;
      }
      IncentivePrefixWhole(game, sf, eval, lookAhead, k, a, old(model), old(nextAux));
    }

    /**
     * `getDominatedActionExpression` for the action at position `a` of
     * information set `k`'s first node, with the memo table passed in and
     * handed back.
     */
    method GetDominatedActionExpression(k: int, a: int, dominatedActionExpressionTable: map<int, LinExpr>)
      returns (expr: LinExpr, table': map<int, LinExpr>)
      modifies this`model, this`nextAux
      ensures Lookup(expr, table', model, nextAux) == DominatedLookup(dominatedActionExpressionTable, a, old(model), old(nextAux))
    {
      if a in dominatedActionExpressionTable {
        return dominatedActionExpressionTable[a], dominatedActionExpressionTable;
      }
      var actionValueVar := Aux(nextAux);
      nextAux := nextAux + 1;
      expr := VarExpr(actionValueVar);
      model := model + [AddVar(actionValueVar, -DoubleMax, DoubleMax, Continuous)];
      model := model + [AddConstr(Constraint(VarExpr(actionValueVar), Ge, ConstExpr(0.0)))];
      table' := dominatedActionExpressionTable[a := expr];
    }
  }

  /** The action of a node that stands for the action named `name`: the last of that name, else the first. */
  method IncentiveActionForNode(actions: seq<Action>, name: string) returns (j: int)
    requires |actions| > 0
    ensures j == MatchingAction(actions, name)
  {
    j := 0;
    var i := 0;
    while i < |actions|
      invariant 0 <= i <= |actions| && j == LastMatch(actions, name, i)
    {
      if actions[i].name == name {
        j := i;
      }
      i := i + 1;
    }
  }
}
