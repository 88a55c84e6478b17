/**
 * The game tree and the sequence-form data that the limited-lookahead
 * opponent model builder reads, and the pure traversals of that tree that
 * specify its recursive walks.
 *
 * The tree is given as an array of nodes (`Game.nodes`), addressed by node
 * id; every action leads to a child with a larger id, which is what makes
 * each walk terminate.
 */
module LookAheadGame {

  /** The largest finite IEEE double, `Double.MAX_VALUE`, exactly: (2^53 - 1) * 2^971. */
  const DoubleMax: real := 179769313486231570814527423731704356798070567525844996598917476803157260780028538760589558632766878171540458953514382464234321326889464182768467546703537516986049910576551282076245490090389328944075868508455133942304583236903222948165808559332123348274797826204144723168738177180919299881250404026184124858368.0

  datatype Action = Action(name: string, child: int)

  /** A node of the game tree: the player to move, its information set, and for a leaf its payoff. */
  datatype Node = Node(player: int, infoSet: int, leaf: bool, value: real, actions: seq<Action>)

  /**
   * `infoSets[i]` lists the nodes of the limited-lookahead player's
   * information set `i` (the list `getInformationSet(playerNotToSolveFor, i)`).
   */
  datatype Game = Game(nodes: seq<Node>, root: int, infoSets: seq<seq<int>>)

  /**
   * What the base sequence-form solver has computed before the builder runs:
   * the two players, the number of dual sequences (sequences of the
   * limited-lookahead player), the id of the sequence `(information set,
   * action name)` of that player, the rational player's sequence leading to
   * each node (one table per player), and each node's chance probability.
   */
  datatype SequenceForm = SequenceForm(
    playerToSolveFor: int,
    playerNotToSolveFor: int,
    numDualSequences: nat,
    dualSequence: map<(int, string), int>,
    sequenceIdForNodeP1: seq<int>,
    sequenceIdForNodeP2: seq<int>,
    natureProbability: seq<real>)

  /** Every action leads to a node with a larger id: the tree is finite and acyclic. */
  predicate ChildrenAfter(g: Game)
  {
    forall i, j :: 0 <= i < |g.nodes| && 0 <= j < |g.nodes[i].actions| ==>
      i < g.nodes[i].actions[j].child < |g.nodes|
  }

  /** A decision node of the limited-lookahead player. */
  predicate OpponentNode(g: Game, sf: SequenceForm, i: int)
  {
    0 <= i < |g.nodes| && !g.nodes[i].leaf && g.nodes[i].player == sf.playerNotToSolveFor
  }

  /** The names of the actions, in any order. */
  function ActionNames(acts: seq<Action>): set<string>
  {
    set j | 0 <= j < |acts| :: acts[j].name
  }

  /**
   * Every decision node of the limited-lookahead player offers actions of
   * the same names as every other node of its information set, in any
   * order.
   */
  ghost predicate NamesAgree(g: Game, sf: SequenceForm)
  {
    forall i, i' :: OpponentNode(g, sf, i) && OpponentNode(g, sf, i') && g.nodes[i].infoSet == g.nodes[i'].infoSet ==>
      ActionNames(g.nodes[i].actions) == ActionNames(g.nodes[i'].actions)
  }

  /**
   * What the builder takes for granted of the game and of the base solver:
   * the tree is finite; every action of the limited-lookahead player has a
   * dual sequence; the listed information sets hold decision nodes of
   * that player with at least one action; the per-node tables cover every node; and the empty
   * sequence 0 exists.
   */
  ghost predicate WellFormed(g: Game, sf: SequenceForm)
  {
    && 0 <= g.root < |g.nodes|
    && ChildrenAfter(g)
    && (forall i, j :: OpponentNode(g, sf, i) && 0 <= j < |g.nodes[i].actions| ==>
          (g.nodes[i].infoSet, g.nodes[i].actions[j].name) in sf.dualSequence
          && 0 <= sf.dualSequence[(g.nodes[i].infoSet, g.nodes[i].actions[j].name)] < sf.numDualSequences)
    && (forall k, m :: 0 <= k < |g.infoSets| && 0 <= m < |g.infoSets[k]| ==>
          OpponentNode(g, sf, g.infoSets[k][m]) && g.nodes[g.infoSets[k][m]].infoSet == k
          && |g.nodes[g.infoSets[k][m]].actions| > 0)
    && |sf.sequenceIdForNodeP1| == |g.nodes| && |sf.sequenceIdForNodeP2| == |g.nodes|
    && |sf.natureProbability| == |g.nodes|
    && sf.numDualSequences > 0
  }

  /** The dual sequence of action `j` at decision node `i` of the limited-lookahead player. */
  function DualSequence(g: Game, sf: SequenceForm, i: int, j: int): (q: int)
    requires WellFormed(g, sf) && OpponentNode(g, sf, i) && 0 <= j < |g.nodes[i].actions|
    ensures 0 <= q < sf.numDualSequences
  {
    sf.dualSequence[(g.nodes[i].infoSet, g.nodes[i].actions[j].name)]
  }

  /** The rational player's sequence leading to node `i` (`sequenceIdForNodeP1` or `P2`). */
  function RationalSequence(sf: SequenceForm, i: int): int
    requires 0 <= i < |sf.sequenceIdForNodeP1| && 0 <= i < |sf.sequenceIdForNodeP2|
  {
    if sf.playerToSolveFor == 1 then sf.sequenceIdForNodeP1[i] else sf.sequenceIdForNodeP2[i]
  }

  // ---------------------------------------------------------------------
  // Running maximum and minimum, as the builder's `if (x > m) m = x` scans
  // ---------------------------------------------------------------------

  function Max(a: real, b: real): real { if b > a then b else a }

  function Min(a: real, b: real): real { if b < a then b else a }

  /** The running maximum after scanning `s` from left to right, starting at `acc`. */
  function MaxFold(acc: real, s: seq<real>): real
  {
    if s == [] then acc else Max(MaxFold(acc, s[..|s| - 1]), s[|s| - 1])
  }

  /** The running minimum after scanning `s` from left to right, starting at `acc`. */
  function MinFold(acc: real, s: seq<real>): real
  {
    if s == [] then acc else Min(MinFold(acc, s[..|s| - 1]), s[|s| - 1])
  }

  /** Scanning a concatenation is scanning the second part from where the first left off. */
  lemma {:induction false} MaxFoldAppend(acc: real, a: seq<real>, b: seq<real>)
    ensures MaxFold(acc, a + b) == MaxFold(MaxFold(acc, a), b)
    decreases |b|
  {
    if b == [] {
      assert a + b == a;
    } else {
      assert (a + b)[..|a + b| - 1] == a + b[..|b| - 1];
      MaxFoldAppend(acc, a, b[..|b| - 1]);
    }
  }

  lemma {:induction false} MinFoldAppend(acc: real, a: seq<real>, b: seq<real>)
    ensures MinFold(acc, a + b) == MinFold(MinFold(acc, a), b)
    decreases |b|
  {
    if b == [] {
      assert a + b == a;
    } else {
      assert (a + b)[..|a + b| - 1] == a + b[..|b| - 1];
      MinFoldAppend(acc, a, b[..|b| - 1]);
    }
  }

  /** The running maximum never falls below its start nor below any scanned value. */
  lemma {:induction false} MaxFoldBounds(acc: real, s: seq<real>)
    ensures acc <= MaxFold(acc, s)
    ensures forall i :: 0 <= i < |s| ==> s[i] <= MaxFold(acc, s)
  {
    if s != [] {
      MaxFoldBounds(acc, s[..|s| - 1]);
      assert forall i :: 0 <= i < |s| - 1 ==> s[i] == s[..|s| - 1][i];
    }
  }

  /** The running maximum is its start or one of the scanned values. */
  lemma {:induction false} MaxFoldAttained(acc: real, s: seq<real>)
    ensures MaxFold(acc, s) == acc || exists i :: 0 <= i < |s| && s[i] == MaxFold(acc, s)
  {
    if s != [] {
      MaxFoldAttained(acc, s[..|s| - 1]);
      if MaxFold(acc, s) != s[|s| - 1] && MaxFold(acc, s) != acc {
        var i :| 0 <= i < |s| - 1 && s[..|s| - 1][i] == MaxFold(acc, s[..|s| - 1]);
        assert s[i] == MaxFold(acc, s);
      }
    }
  }

  lemma {:induction false} MinFoldBounds(acc: real, s: seq<real>)
    ensures MinFold(acc, s) <= acc
    ensures forall i :: 0 <= i < |s| ==> MinFold(acc, s) <= s[i]
  {
    if s != [] {
      MinFoldBounds(acc, s[..|s| - 1]);
      assert forall i :: 0 <= i < |s| - 1 ==> s[i] == s[..|s| - 1][i];
    }
  }

  lemma {:induction false} MinFoldAttained(acc: real, s: seq<real>)
    ensures MinFold(acc, s) == acc || exists i :: 0 <= i < |s| && s[i] == MinFold(acc, s)
  {
    if s != [] {
      MinFoldAttained(acc, s[..|s| - 1]);
      if MinFold(acc, s) != s[|s| - 1] && MinFold(acc, s) != acc {
        var i :| 0 <= i < |s| - 1 && s[..|s| - 1][i] == MinFold(acc, s[..|s| - 1]);
        assert s[i] == MinFold(acc, s);
      }
    }
  }

  // ---------------------------------------------------------------------
  // Traversals of the tree
  // ---------------------------------------------------------------------

  /** The payoffs of the leaves below node `id`, in depth-first order. */
  function LeafValues(g: Game, id: int): seq<real>
    requires ChildrenAfter(g) && 0 <= id < |g.nodes|
    decreases |g.nodes| - id, 1, 0
  {
    if g.nodes[id].leaf then [g.nodes[id].value]
    else LeafValuesBelow(g, id, |g.nodes[id].actions|)
  }

  /** The leaf payoffs below the first `k` actions of node `id`. */
  function LeafValuesBelow(g: Game, id: int, k: int): seq<real>
    requires ChildrenAfter(g) && 0 <= id < |g.nodes| && 0 <= k <= |g.nodes[id].actions|
    decreases |g.nodes| - id, 0, k
  {
    if k == 0 then []
    else LeafValuesBelow(g, id, k - 1) + LeafValues(g, g.nodes[id].actions[k - 1].child)
  }

  /**
   * The nodes where a depth-bounded walk entered at node `id` with depth
   * `depth` stops: those reached when the depth equals `lookAhead`, and the
   * leaves above that depth, in depth-first order. The cut-off test is an
   * equality, so a walk that starts deeper than `lookAhead` runs to the leaves.
   */
  function Frontier(g: Game, id: int, depth: int, lookAhead: int): (f: seq<int>)
    requires ChildrenAfter(g) && 0 <= id < |g.nodes|
    ensures forall i :: 0 <= i < |f| ==> id <= f[i] < |g.nodes|
    decreases |g.nodes| - id, 1, 0
  {
    if depth == lookAhead || g.nodes[id].leaf then [id]
    else FrontierBelow(g, id, depth, lookAhead, |g.nodes[id].actions|)
  }

  /** The frontier below the first `k` actions of node `id`. */
  function FrontierBelow(g: Game, id: int, depth: int, lookAhead: int, k: int): (f: seq<int>)
    requires ChildrenAfter(g) && 0 <= id < |g.nodes| && 0 <= k <= |g.nodes[id].actions|
    ensures forall i :: 0 <= i < |f| ==> id < f[i] < |g.nodes|
    decreases |g.nodes| - id, 0, k
  {
    if k == 0 then []
    else FrontierBelow(g, id, depth, lookAhead, k - 1) + Frontier(g, g.nodes[id].actions[k - 1].child, depth + 1, lookAhead)
  }

  /** The evaluations of a list of nodes. */
  function Evaluations(eval: seq<real>, ids: seq<int>): (es: seq<real>)
    requires forall i :: 0 <= i < |ids| ==> 0 <= ids[i] < |eval|
    ensures |es| == |ids| && forall i :: 0 <= i < |ids| ==> es[i] == eval[ids[i]]
  {
    seq(|ids|, i requires 0 <= i < |ids| => eval[ids[i]])
  }

  lemma EvaluationsAppend(eval: seq<real>, a: seq<int>, b: seq<int>)
    requires forall i :: 0 <= i < |a| ==> 0 <= a[i] < |eval|
    requires forall i :: 0 <= i < |b| ==> 0 <= b[i] < |eval|
    ensures Evaluations(eval, a + b) == Evaluations(eval, a) + Evaluations(eval, b)
  {
  }
}
