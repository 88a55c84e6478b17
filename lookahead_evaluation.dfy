/**
 * What the limited-lookahead builder computes from the node-evaluation
 * table and the leaf payoffs, as pure functions with their properties:
 * the shift that makes the table non-negative, the per-sequence maximum
 * heuristic value, and the payoff range used to widen dual constraints.
 */
module LookAheadEvaluation {
  import opened LookAheadGame

  function Abs(x: real): real { if x < 0.0 then -x else x }

  /** Every entry of `s` raised by `d`. */
  function Shifted(s: seq<real>, d: real): (r: seq<real>)
    ensures |r| == |s|
  {
    seq(|s|, i requires 0 <= i < |s| => s[i] + d)
  }

  /** The shift applied to the table: `|min(0, smallest entry)|`. */
  function NonNegativeShiftAmount(s: seq<real>): real
  {
    Abs(MinFold(0.0, s))
  }

  /** The node-evaluation table after normalisation. */
  function NonNegativeShift(s: seq<real>): (r: seq<real>)
    ensures |r| == |s|
  {
    Shifted(s, NonNegativeShiftAmount(s))
  }

  /**
   * Normalisation raises every entry by the same amount, which is the
   * smallest amount that leaves no entry negative: afterwards all entries
   * are non-negative, and unless nothing moved, some entry is exactly 0.
   */
  lemma NonNegativeShiftIsLeastUniformShift(s: seq<real>)
    ensures NonNegativeShiftAmount(s) >= 0.0
    ensures forall i :: 0 <= i < |s| ==> NonNegativeShift(s)[i] == s[i] + NonNegativeShiftAmount(s)
    ensures forall i :: 0 <= i < |s| ==> NonNegativeShift(s)[i] >= 0.0
    ensures NonNegativeShiftAmount(s) == 0.0 || exists i :: 0 <= i < |s| && NonNegativeShift(s)[i] == 0.0
  {
    MinFoldBounds(0.0, s);
    MinFoldAttained(0.0, s);
  }

  /** Shifting keeps every pairwise difference of the table. */
  lemma NonNegativeShiftPreservesDifferences(s: seq<real>, i: int, j: int)
    requires 0 <= i < |s| && 0 <= j < |s|
    ensures NonNegativeShift(s)[i] - NonNegativeShift(s)[j] == s[i] - s[j]
  {
  }

  /** A table with no negative entry is left as it is. */
  lemma NonNegativeShiftKeepsNonNegativeTable(s: seq<real>)
    requires forall i :: 0 <= i < |s| ==> s[i] >= 0.0
    ensures NonNegativeShift(s) == s
  {
    MinFoldBounds(0.0, s);
    MinFoldAttained(0.0, s);
    assert NonNegativeShiftAmount(s) == 0.0;
  }

  // ---------------------------------------------------------------------
  // Maximum heuristic value per dual sequence
  // ---------------------------------------------------------------------

  /** One start of the depth-bounded walk: the node, the sequence whose entry it raises, the starting depth. */
  datatype Seed = Seed(node: int, sequence: int, depth: int)

  /** `s` starts at a child of an action of the limited-lookahead player, at depth 1, for that action's sequence. */
  ghost predicate ActionSeed(g: Game, sf: SequenceForm, s: Seed)
    requires WellFormed(g, sf)
  {
    exists x, j :: OpponentNode(g, sf, x) && 0 <= j < |g.nodes[x].actions|
      && s == Seed(g.nodes[x].actions[j].child, DualSequence(g, sf, x, j), 1)
  }

  /** Every seed names a node of the tree and an entry of a table of `n` sequences. */
  predicate SeedsIn(g: Game, n: int, ss: seq<Seed>)
  {
    forall k :: 0 <= k < |ss| ==> 0 <= ss[k].node < |g.nodes| && 0 <= ss[k].sequence < n
  }

  /** The seeds of the actions `0..a-1` at node `m` of information set `i`. */
  function ActionSeeds(g: Game, sf: SequenceForm, i: int, m: int, a: int): (ss: seq<Seed>)
    requires WellFormed(g, sf) && 0 <= i < |g.infoSets| && 0 <= m < |g.infoSets[i]|
    requires 0 <= a <= |g.nodes[g.infoSets[i][m]].actions|
    ensures SeedsIn(g, sf.numDualSequences, ss)
  {
    if a == 0 then []
    else
      var x := g.infoSets[i][m];
      var s := Seed(g.nodes[x].actions[a - 1].child, sf.dualSequence[(i, g.nodes[x].actions[a - 1].name)], 1);
      ActionSeeds(g, sf, i, m, a - 1) + [s]
  }

  /** The seeds of the nodes `0..m-1` of information set `i`. */
  function NodeSeeds(g: Game, sf: SequenceForm, i: int, m: int): (ss: seq<Seed>)
    requires WellFormed(g, sf) && 0 <= i < |g.infoSets| && 0 <= m <= |g.infoSets[i]|
    ensures SeedsIn(g, sf.numDualSequences, ss)
  {
    if m == 0 then []
    else NodeSeeds(g, sf, i, m - 1) + ActionSeeds(g, sf, i, m - 1, |g.nodes[g.infoSets[i][m - 1]].actions|)
  }

  /** The seeds of the information sets `0..k-1`. */
  function InfoSetSeeds(g: Game, sf: SequenceForm, k: int): (ss: seq<Seed>)
    requires WellFormed(g, sf) && 0 <= k <= |g.infoSets|
    ensures SeedsIn(g, sf.numDualSequences, ss)
  {
    if k == 0 then []
    else InfoSetSeeds(g, sf, k - 1) + NodeSeeds(g, sf, k - 1, |g.infoSets[k - 1]|)
  }

  /**
   * All seeds, in the order the builder walks them: sequence 0 from the
   * root at depth 0, then every action of every node of every information
   * set of the limited-lookahead player, from its child at depth 1.
   */
  function Seeds(g: Game, sf: SequenceForm): (ss: seq<Seed>)
    requires WellFormed(g, sf)
    ensures SeedsIn(g, sf.numDualSequences, ss)
    ensures |ss| > 0 && ss[0] == Seed(g.root, 0, 0)
  {
    [Seed(g.root, 0, 0)] + InfoSetSeeds(g, sf, |g.infoSets|)
  }

  /** Every seed of `ss` is an action seed. */
  ghost predicate AllActionSeeds(g: Game, sf: SequenceForm, ss: seq<Seed>)
    requires WellFormed(g, sf)
  {
    forall k :: 0 <= k < |ss| ==> ActionSeed(g, sf, ss[k])
  }

  lemma AllActionSeedsAppend(g: Game, sf: SequenceForm, a: seq<Seed>, b: seq<Seed>)
    requires WellFormed(g, sf) && AllActionSeeds(g, sf, a) && AllActionSeeds(g, sf, b)
    ensures AllActionSeeds(g, sf, a + b)
  {
    forall k | 0 <= k < |a + b|
      ensures ActionSeed(g, sf, (a + b)[k])
    {
      if k < |a| {
        assert (a + b)[k] == a[k];
      } else {
        assert (a + b)[k] == b[k - |a|];
      }
    }
  }

  lemma {:induction false} ActionSeedsAreActionSeeds(g: Game, sf: SequenceForm, i: int, m: int, a: int)
    requires WellFormed(g, sf) && 0 <= i < |g.infoSets| && 0 <= m < |g.infoSets[i]|
    requires 0 <= a <= |g.nodes[g.infoSets[i][m]].actions|
    ensures AllActionSeeds(g, sf, ActionSeeds(g, sf, i, m, a))
  {
    if a > 0 {
      ActionSeedsAreActionSeeds(g, sf, i, m, a - 1);
      var x := g.infoSets[i][m];
      var s := Seed(g.nodes[x].actions[a - 1].child, DualSequence(g, sf, x, a - 1), 1);
      assert ActionSeed(g, sf, s);
      assert AllActionSeeds(g, sf, [s]);
      AllActionSeedsAppend(g, sf, ActionSeeds(g, sf, i, m, a - 1), [s]);
    }
  }

  lemma {:induction false} NodeSeedsAreActionSeeds(g: Game, sf: SequenceForm, i: int, m: int)
    requires WellFormed(g, sf) && 0 <= i < |g.infoSets| && 0 <= m <= |g.infoSets[i]|
    ensures AllActionSeeds(g, sf, NodeSeeds(g, sf, i, m))
  {
    if m > 0 {
      NodeSeedsAreActionSeeds(g, sf, i, m - 1);
      ActionSeedsAreActionSeeds(g, sf, i, m - 1, |g.nodes[g.infoSets[i][m - 1]].actions|);
      AllActionSeedsAppend(g, sf, NodeSeeds(g, sf, i, m - 1), ActionSeeds(g, sf, i, m - 1, |g.nodes[g.infoSets[i][m - 1]].actions|));
    }
  }

  lemma {:induction false} InfoSetSeedsAreActionSeeds(g: Game, sf: SequenceForm, k: int)
    requires WellFormed(g, sf) && 0 <= k <= |g.infoSets|
    ensures AllActionSeeds(g, sf, InfoSetSeeds(g, sf, k))
  {
    if k > 0 {
      InfoSetSeedsAreActionSeeds(g, sf, k - 1);
      NodeSeedsAreActionSeeds(g, sf, k - 1, |g.infoSets[k - 1]|);
      AllActionSeedsAppend(g, sf, InfoSetSeeds(g, sf, k - 1), NodeSeeds(g, sf, k - 1, |g.infoSets[k - 1]|));
    }
  }

  /**
   * The walks start once from the root, at depth 0, for the empty sequence
   * 0, and otherwise only from children of the limited-lookahead player's
   * actions, at depth 1, for those actions' sequences.
   */
  lemma SeedsStartAtRootThenActions(g: Game, sf: SequenceForm)
    requires WellFormed(g, sf)
    ensures Seeds(g, sf)[0] == Seed(g.root, 0, 0)
    ensures forall k :: 1 <= k < |Seeds(g, sf)| ==> ActionSeed(g, sf, Seeds(g, sf)[k])
  {
    var rest := InfoSetSeeds(g, sf, |g.infoSets|);
    InfoSetSeedsAreActionSeeds(g, sf, |g.infoSets|);
    forall k | 1 <= k < |Seeds(g, sf)|
      ensures ActionSeed(g, sf, Seeds(g, sf)[k])
    {
      assert Seeds(g, sf)[k] == rest[k - 1];
    }
  }

  /** The larger of `acc` and every evaluation on the frontier below `id` entered at `depth`. */
  function FrontierMax(g: Game, eval: seq<real>, lookAhead: int, acc: real, id: int, depth: int): real
    requires ChildrenAfter(g) && |eval| == |g.nodes| && 0 <= id < |g.nodes|
  {
    MaxFold(acc, Evaluations(eval, Frontier(g, id, depth, lookAhead)))
  }

  /** The same over the subtrees of the first `k` actions of `id`. */
  function FrontierBelowMax(g: Game, eval: seq<real>, lookAhead: int, acc: real, id: int, depth: int, k: int): real
    requires ChildrenAfter(g) && |eval| == |g.nodes| && 0 <= id < |g.nodes| && 0 <= k <= |g.nodes[id].actions|
  {
    MaxFold(acc, Evaluations(eval, FrontierBelow(g, id, depth, lookAhead, k)))
  }

  /** A frontier node contributes its own evaluation. */
  lemma FrontierMaxAtFrontier(g: Game, eval: seq<real>, lookAhead: int, acc: real, id: int, depth: int)
    requires ChildrenAfter(g) && |eval| == |g.nodes| && 0 <= id < |g.nodes|
    requires depth == lookAhead || g.nodes[id].leaf
    ensures FrontierMax(g, eval, lookAhead, acc, id, depth) == Max(acc, eval[id])
  {
    assert Frontier(g, id, depth, lookAhead) == [id];
    var es := Evaluations(eval, [id]);
    assert es == [eval[id]];
    assert es[..0] == [];
    assert MaxFold(acc, es) == Max(MaxFold(acc, []), eval[id]);
  }

  /** Above the frontier, the walk visits the subtrees of all actions. */
  lemma FrontierMaxInner(g: Game, eval: seq<real>, lookAhead: int, acc: real, id: int, depth: int)
    requires ChildrenAfter(g) && |eval| == |g.nodes| && 0 <= id < |g.nodes|
    requires depth != lookAhead && !g.nodes[id].leaf
    ensures FrontierMax(g, eval, lookAhead, acc, id, depth)
         == FrontierBelowMax(g, eval, lookAhead, acc, id, depth, |g.nodes[id].actions|)
  {
  }

  /** No action visited leaves the accumulator as it is. */
  lemma FrontierBelowMaxNone(g: Game, eval: seq<real>, lookAhead: int, acc: real, id: int, depth: int)
    requires ChildrenAfter(g) && |eval| == |g.nodes| && 0 <= id < |g.nodes|
    ensures FrontierBelowMax(g, eval, lookAhead, acc, id, depth, 0) == acc
  {
  }

  /** Visiting action `k` continues the running maximum into that action's subtree. */
  lemma FrontierBelowMaxStep(g: Game, eval: seq<real>, lookAhead: int, acc: real, id: int, depth: int, k: int)
    requires ChildrenAfter(g) && |eval| == |g.nodes| && 0 <= id < |g.nodes| && 0 <= k < |g.nodes[id].actions|
    ensures FrontierBelowMax(g, eval, lookAhead, acc, id, depth, k + 1)
         == FrontierMax(g, eval, lookAhead, FrontierBelowMax(g, eval, lookAhead, acc, id, depth, k), g.nodes[id].actions[k].child, depth + 1)
  {
    var a := FrontierBelow(g, id, depth, lookAhead, k);
    var b := Frontier(g, g.nodes[id].actions[k].child, depth + 1, lookAhead);
    EvaluationsAppend(eval, a, b);
    MaxFoldAppend(acc, Evaluations(eval, a), Evaluations(eval, b));
  }

  /** A table of `n` zeros, as `Arrays.fill(t, 0)` leaves it. */
  function Zeros(n: nat): (r: seq<real>)
    ensures |r| == n && forall i :: 0 <= i < n ==> r[i] == 0.0
  {
    seq(n, _ => 0.0)
  }

  /** The table after one walk: the seed's entry raised to the largest evaluation on its frontier. */
  function ApplySeed(g: Game, eval: seq<real>, lookAhead: int, t: seq<real>, s: Seed): (r: seq<real>)
    requires ChildrenAfter(g) && |eval| == |g.nodes|
    requires 0 <= s.node < |g.nodes| && 0 <= s.sequence < |t|
    ensures |r| == |t|
  {
    t[s.sequence := FrontierMax(g, eval, lookAhead, t[s.sequence], s.node, s.depth)]
  }

  /** The table after walks from each seed in turn. */
  function ApplySeeds(g: Game, eval: seq<real>, lookAhead: int, t: seq<real>, ss: seq<Seed>): (r: seq<real>)
    requires ChildrenAfter(g) && |eval| == |g.nodes| && SeedsIn(g, |t|, ss)
    ensures |r| == |t|
  {
    if ss == [] then t
    else
      var ss' := ss[..|ss| - 1];
      assert SeedsIn(g, |t|, ss');
      ApplySeed(g, eval, lookAhead, ApplySeeds(g, eval, lookAhead, t, ss'), ss[|ss| - 1])
  }

  lemma {:induction false} ApplySeedsAppend(g: Game, eval: seq<real>, lookAhead: int, t: seq<real>, a: seq<Seed>, b: seq<Seed>)
    requires ChildrenAfter(g) && |eval| == |g.nodes| && SeedsIn(g, |t|, a) && SeedsIn(g, |t|, b)
    ensures SeedsIn(g, |t|, a + b)
    ensures ApplySeeds(g, eval, lookAhead, t, a + b) == ApplySeeds(g, eval, lookAhead, ApplySeeds(g, eval, lookAhead, t, a), b)
    decreases |b|
  {
    if b == [] {
      assert a + b == a;
    } else {
      var b' := b[..|b| - 1];
      assert (a + b)[..|a + b| - 1] == a + b';
      ApplySeedsAppend(g, eval, lookAhead, t, a, b');
    }
  }

  /** `ApplySeedsAppend` for a list already known to be the concatenation. */
  lemma ApplySeedsRegroup(g: Game, eval: seq<real>, lookAhead: int, t: seq<real>, a: seq<Seed>, b: seq<Seed>, ab: seq<Seed>)
    requires ChildrenAfter(g) && |eval| == |g.nodes| && SeedsIn(g, |t|, a) && SeedsIn(g, |t|, b) && ab == a + b
    ensures SeedsIn(g, |t|, ab)
    ensures ApplySeeds(g, eval, lookAhead, t, ab) == ApplySeeds(g, eval, lookAhead, ApplySeeds(g, eval, lookAhead, t, a), b)
  {
    ApplySeedsAppend(g, eval, lookAhead, t, a, b);
  }

  /** Walking one more seed applies it to the table the earlier seeds left. */
  lemma ApplySeedsSnoc(g: Game, eval: seq<real>, lookAhead: int, t: seq<real>, ss: seq<Seed>, s: Seed)
    requires ChildrenAfter(g) && |eval| == |g.nodes| && SeedsIn(g, |t|, ss)
    requires 0 <= s.node < |g.nodes| && 0 <= s.sequence < |t|
    ensures SeedsIn(g, |t|, ss + [s])
    ensures ApplySeeds(g, eval, lookAhead, t, ss + [s]) == ApplySeed(g, eval, lookAhead, ApplySeeds(g, eval, lookAhead, t, ss), s)
  {
    assert (ss + [s])[..|ss|] == ss;
  }

  /** The tables and the game agree in size. */
  ghost predicate Fits(g: Game, sf: SequenceForm, eval: seq<real>, t: seq<real>)
  {
    WellFormed(g, sf) && |eval| == |g.nodes| && |t| == sf.numDualSequences
  }

  /** Table `t` after the walks for actions `0..a-1` of node `m` of information set `i`. */
  function AfterActions(g: Game, sf: SequenceForm, eval: seq<real>, lookAhead: int, t: seq<real>, i: int, m: int, a: int): (r: seq<real>)
    requires Fits(g, sf, eval, t) && 0 <= i < |g.infoSets| && 0 <= m < |g.infoSets[i]|
    requires 0 <= a <= |g.nodes[g.infoSets[i][m]].actions|
    ensures |r| == |t|
  {
    ApplySeeds(g, eval, lookAhead, t, ActionSeeds(g, sf, i, m, a))
  }

  /** Table `t` after the walks for nodes `0..m-1` of information set `i`. */
  function AfterNodes(g: Game, sf: SequenceForm, eval: seq<real>, lookAhead: int, t: seq<real>, i: int, m: int): (r: seq<real>)
    requires Fits(g, sf, eval, t) && 0 <= i < |g.infoSets| && 0 <= m <= |g.infoSets[i]|
    ensures |r| == |t|
  {
    ApplySeeds(g, eval, lookAhead, t, NodeSeeds(g, sf, i, m))
  }

  /** Table `t` after the walk from the root and those for information sets `0..k-1`. */
  function AfterInfoSets(g: Game, sf: SequenceForm, eval: seq<real>, lookAhead: int, t: seq<real>, k: int): (r: seq<real>)
    requires Fits(g, sf, eval, t) && 0 <= k <= |g.infoSets|
    ensures |r| == |t|
  {
    var ss := [Seed(g.root, 0, 0)] + InfoSetSeeds(g, sf, k);
    assert SeedsIn(g, |t|, ss);
    ApplySeeds(g, eval, lookAhead, t, ss)
  }

  /** The walk for action `a` raises its sequence's entry by the frontier below its child. */
  lemma NextActionSeed(g: Game, sf: SequenceForm, eval: seq<real>, lookAhead: int, t: seq<real>, i: int, m: int, a: int, before: seq<real>, after: seq<real>)
    requires Fits(g, sf, eval, t) && 0 <= i < |g.infoSets| && 0 <= m < |g.infoSets[i]|
    requires 0 <= a < |g.nodes[g.infoSets[i][m]].actions|
    requires before == AfterActions(g, sf, eval, lookAhead, t, i, m, a)
    requires var act := g.nodes[g.infoSets[i][m]].actions[a]; var q := sf.dualSequence[(i, act.name)];
      after == before[q := FrontierMax(g, eval, lookAhead, before[q], act.child, 1)]
    ensures after == AfterActions(g, sf, eval, lookAhead, t, i, m, a + 1)
  {
    var act := g.nodes[g.infoSets[i][m]].actions[a];
    ApplySeedsSnoc(g, eval, lookAhead, t, ActionSeeds(g, sf, i, m, a), Seed(act.child, sf.dualSequence[(i, act.name)], 1));
  }

  /** The walks for node `m` continue from the table the earlier nodes left. */
  lemma NextNodeSeeds(g: Game, sf: SequenceForm, eval: seq<real>, lookAhead: int, t: seq<real>, i: int, m: int, before: seq<real>, after: seq<real>)
    requires Fits(g, sf, eval, t) && Fits(g, sf, eval, before) && 0 <= i < |g.infoSets| && 0 <= m < |g.infoSets[i]|
    requires before == AfterNodes(g, sf, eval, lookAhead, t, i, m)
    requires after == AfterActions(g, sf, eval, lookAhead, before, i, m, |g.nodes[g.infoSets[i][m]].actions|)
    ensures after == AfterNodes(g, sf, eval, lookAhead, t, i, m + 1)
  {
    ApplySeedsAppend(g, eval, lookAhead, t, NodeSeeds(g, sf, i, m), ActionSeeds(g, sf, i, m, |g.nodes[g.infoSets[i][m]].actions|));
  }

  /** The walks for information set `k` continue from the table the root and the earlier sets left. */
  lemma NextInfoSetSeeds(g: Game, sf: SequenceForm, eval: seq<real>, lookAhead: int, t: seq<real>, k: int, before: seq<real>, after: seq<real>)
    requires Fits(g, sf, eval, t) && Fits(g, sf, eval, before) && 0 <= k < |g.infoSets|
    requires before == AfterInfoSets(g, sf, eval, lookAhead, t, k)
    requires after == AfterNodes(g, sf, eval, lookAhead, before, k, |g.infoSets[k]|)
    ensures after == AfterInfoSets(g, sf, eval, lookAhead, t, k + 1)
  {
    var r := [Seed(g.root, 0, 0)];
    var a := InfoSetSeeds(g, sf, k);
    var b := NodeSeeds(g, sf, k, |g.infoSets[k]|);
    ApplySeedsRegroup(g, eval, lookAhead, t, r + a, b, r + InfoSetSeeds(g, sf, k + 1));
  }

  /** Before any information set, only the root's walk has raised entry 0. */
  lemma RootSeed(g: Game, sf: SequenceForm, eval: seq<real>, lookAhead: int, t: seq<real>)
    requires Fits(g, sf, eval, t)
    ensures AfterInfoSets(g, sf, eval, lookAhead, t, 0) == t[0 := FrontierMax(g, eval, lookAhead, t[0], g.root, 0)]
  {
    var ss := [Seed(g.root, 0, 0)];
    assert [Seed(g.root, 0, 0)] + InfoSetSeeds(g, sf, 0) == ss;
    assert ss[..0] == [];
    assert ApplySeeds(g, eval, lookAhead, t, ss) == ApplySeed(g, eval, lookAhead, t, ss[0]);
  }

  /** After the last information set, every seed has been walked. */
  lemma AllInfoSetSeeds(g: Game, sf: SequenceForm, eval: seq<real>, lookAhead: int, t: seq<real>)
    requires Fits(g, sf, eval, t)
    ensures AfterInfoSets(g, sf, eval, lookAhead, t, |g.infoSets|) == ApplySeeds(g, eval, lookAhead, t, Seeds(g, sf))
  {
  }

  /** A node on the frontier of seed `s`. */
  predicate OnFrontier(g: Game, lookAhead: int, s: Seed, x: int)
    requires ChildrenAfter(g) && 0 <= s.node < |g.nodes|
  {
    x in Frontier(g, s.node, s.depth, lookAhead)
  }

  /** Entries only ever increase. */
  lemma {:induction false} ApplySeedsIncreases(g: Game, eval: seq<real>, lookAhead: int, t: seq<real>, ss: seq<Seed>)
    requires ChildrenAfter(g) && |eval| == |g.nodes| && SeedsIn(g, |t|, ss)
    ensures forall q :: 0 <= q < |t| ==> t[q] <= ApplySeeds(g, eval, lookAhead, t, ss)[q]
  {
    if ss != [] {
      var ss' := ss[..|ss| - 1];
      var s := ss[|ss| - 1];
      ApplySeedsIncreases(g, eval, lookAhead, t, ss');
      var before := ApplySeeds(g, eval, lookAhead, t, ss');
      MaxFoldBounds(before[s.sequence], Evaluations(eval, Frontier(g, s.node, s.depth, lookAhead)));
    }
  }

  /** After the walks, a seed's entry is at least the evaluation of every node on its frontier. */
  lemma {:induction false} ApplySeedsCoversFrontiers(g: Game, eval: seq<real>, lookAhead: int, t: seq<real>, ss: seq<Seed>, k: int, x: int)
    requires ChildrenAfter(g) && |eval| == |g.nodes| && SeedsIn(g, |t|, ss)
    requires 0 <= k < |ss| && OnFrontier(g, lookAhead, ss[k], x)
    ensures 0 <= x < |eval|
    ensures eval[x] <= ApplySeeds(g, eval, lookAhead, t, ss)[ss[k].sequence]
    decreases |ss|
  {
    var ss' := ss[..|ss| - 1];
    var s := ss[|ss| - 1];
    var before := ApplySeeds(g, eval, lookAhead, t, ss');
    var es := Evaluations(eval, Frontier(g, s.node, s.depth, lookAhead));
    MaxFoldBounds(before[s.sequence], es);
    if k == |ss| - 1 {
      var i :| 0 <= i < |Frontier(g, s.node, s.depth, lookAhead)| && Frontier(g, s.node, s.depth, lookAhead)[i] == x;
      assert es[i] == eval[x];
    } else {
      assert ss'[k] == ss[k];
      ApplySeedsCoversFrontiers(g, eval, lookAhead, t, ss', k, x);
    }
  }

  /** Whether some seed for sequence `q` has a frontier node evaluated at `v`. */
  ghost predicate ReachedValue(g: Game, eval: seq<real>, lookAhead: int, ss: seq<Seed>, q: int, v: real)
    requires ChildrenAfter(g) && |eval| == |g.nodes|
  {
    exists k, x :: 0 <= k < |ss| && ss[k].sequence == q && 0 <= ss[k].node < |g.nodes|
      && OnFrontier(g, lookAhead, ss[k], x) && 0 <= x < |eval| && eval[x] == v
  }

  /** After the walks an entry is its initial value or the evaluation of a frontier node of one of its seeds. */
  lemma {:induction false} ApplySeedsAttained(g: Game, eval: seq<real>, lookAhead: int, t: seq<real>, ss: seq<Seed>, q: int)
    requires ChildrenAfter(g) && |eval| == |g.nodes| && SeedsIn(g, |t|, ss) && 0 <= q < |t|
    ensures ApplySeeds(g, eval, lookAhead, t, ss)[q] == t[q]
         || ReachedValue(g, eval, lookAhead, ss, q, ApplySeeds(g, eval, lookAhead, t, ss)[q])
  {
    if ss != [] {
      var ss' := ss[..|ss| - 1];
      var s := ss[|ss| - 1];
      var before := ApplySeeds(g, eval, lookAhead, t, ss');
      var after := ApplySeeds(g, eval, lookAhead, t, ss);
      ApplySeedsAttained(g, eval, lookAhead, t, ss', q);
      if after[q] != t[q] {
        if ReachedValue(g, eval, lookAhead, ss', q, before[q]) && after[q] == before[q] {
          var k, x :| 0 <= k < |ss'| && ss'[k].sequence == q && 0 <= ss'[k].node < |g.nodes|
            && OnFrontier(g, lookAhead, ss'[k], x) && 0 <= x < |eval| && eval[x] == before[q];
          assert ss[k] == ss'[k];
        } else {
          var f := Frontier(g, s.node, s.depth, lookAhead);
          var es := Evaluations(eval, f);
          assert s.sequence == q && after[q] == MaxFold(before[q], es);
          MaxFoldAttained(before[q], es);
          var i :| 0 <= i < |es| && es[i] == after[q];
          assert OnFrontier(g, lookAhead, s, f[i]);
        }
      }
    }
  }

  // ---------------------------------------------------------------------
  // Payoff range
  // ---------------------------------------------------------------------

  /**
   * Scanning finite doubles from the sentinels `-Double.MAX_VALUE` and
   * `Double.MAX_VALUE` yields the largest and the smallest of them; with at
   * least one value, the largest is at least the smallest.
   */
  lemma PayoffScanFindsExtremes(s: seq<real>)
    requires |s| > 0
    requires forall i :: 0 <= i < |s| ==> -DoubleMax <= s[i] <= DoubleMax
    ensures exists i :: 0 <= i < |s| && s[i] == MaxFold(-DoubleMax, s)
    ensures exists i :: 0 <= i < |s| && s[i] == MinFold(DoubleMax, s)
    ensures forall i :: 0 <= i < |s| ==> MinFold(DoubleMax, s) <= s[i] <= MaxFold(-DoubleMax, s)
    ensures MinFold(DoubleMax, s) <= MaxFold(-DoubleMax, s)
  {
    MaxFoldBounds(-DoubleMax, s);
    MaxFoldAttained(-DoubleMax, s);
    MinFoldBounds(DoubleMax, s);
    MinFoldAttained(DoubleMax, s);
    assert s[0] <= MaxFold(-DoubleMax, s);
  }
}
