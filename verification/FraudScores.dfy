/** What the score says about a node: its distance to the flagged nodes, and how marking
    a node moves everybody else's score (fraud/gnn.go). */
module FraudScores {
  import opened FraudRisk
  import opened RealPower

  // ---------------------------------------------------------------- chains to a flagged node

  /** A chain from p[0] to a flagged node: forward payments, except that the last edge may
      instead be a payment sent by the flagged node. It has |p| - 1 edges. */
  ghost predicate IsChain(g: Graph, p: seq<NodeId>)
    decreases |p|
  {
    && |p| >= 2
    && if |p| == 2 then
         Flagged(g, p[1]) && (HasEdge(g, p[0], p[1]) || HasEdge(g, p[1], p[0]))
       else
         HasEdge(g, p[0], p[1]) && IsChain(g, p[1..])
  }

  ghost predicate ChainFrom(g: Graph, id: NodeId, p: seq<NodeId>) {
    IsChain(g, p) && p[0] == id
  }

  /** No chain from id has fewer than d edges. */
  ghost predicate Distant(g: Graph, id: NodeId, d: nat) {
    forall p :: ChainFrom(g, id, p) ==> |p| - 1 >= d
  }

  /** The shortest chain from id has exactly d edges. */
  ghost predicate AtDistance(g: Graph, id: NodeId, d: nat) {
    Distant(g, id, d) && exists p :: ChainFrom(g, id, p) && |p| - 1 == d
  }

  lemma DistantNeighbour(g: Graph, id: NodeId, n: NodeId, d: nat)
    requires Distant(g, id, d) && HasEdge(g, id, n) && d > 0
    ensures Distant(g, n, d - 1)
  {
    forall p | ChainFrom(g, n, p)
      ensures |p| - 1 >= d - 1
    {
      assert ([id] + p)[1..] == p;
      assert ChainFrom(g, id, [id] + p);
    }
  }

  lemma {:induction false} LowerBound(g: Graph, p: seq<NodeId>, hops: int)
    requires GoodWeights(g) && IsChain(g, p) && |p| - 1 <= hops
    ensures WalkRisk(g, p[0], hops) >= MULE_RISK * Pow(0.06, |p| - 1)
    decreases |p|
  {
    var id, n := p[0], p[1];
    var floor := MULE_RISK * Pow(0.06, |p| - 2);
    PowAtMostOne(0.06, |p| - 2);
    if HasEdge(g, id, n) {
      WalkOffer(g, id, hops, n);
      if Flagged(g, n) {
        OneHopFloor(BaseRisk(g, n), g.weight[(id, n)], floor);
      } else {
        LowerBound(g, p[1..], hops - 1);
        OneHopFloor(WalkRisk(g, n, hops - 1), g.weight[(id, n)], floor);
      }
    } else {
      SenderOffer(g, id, hops, {}, n);
      OneHopFloor(BaseRisk(g, n), g.weight[(n, id)], floor);
    }
  }

  lemma OneHopFloor(x: real, w: real, floor: real)
    requires x >= floor >= 0.0 && w >= 0.1
    ensures Propagated(x, w) >= 0.06 * floor
  {
    assert x * w >= floor * 0.1;
    assert Propagated(x, w) == DECAY * (x * w);
  }

  lemma {:induction false} UpperBound(g: Graph, id: NodeId, hops: int, d: nat)
    requires GoodWeights(g) && d >= 1 && Distant(g, id, d)
    ensures WalkRisk(g, id, hops) <= Pow(DECAY, d)
    decreases hops
  {
    PowPositive(DECAY, d);
    if WalkRisk(g, id, hops) > 0.0 {
      var o := WalkOrigin(g, id, hops);
      match o
      case FromSender(s) =>
        assert ChainFrom(g, id, [id, s]);
        PropagatedShrinks(BaseRisk(g, s), g.weight[(s, id)]);
      case FromFlagged(n) =>
        assert ChainFrom(g, id, [id, n]);
        PropagatedShrinks(BaseRisk(g, n), g.weight[(id, n)]);
      case FromWalk(n) =>
        PropagatedShrinks(WalkRisk(g, n, hops - 1), g.weight[(id, n)]);
        DistantNeighbour(g, id, n, d);
        UpperBound(g, n, hops - 1, if d > 1 then d - 1 else 1);
    }
  }

  /** Risk that is only passed on never reaches the risk of a flagged node. */
  lemma WalkCeiling(g: Graph, id: NodeId, hops: int)
    requires GoodWeights(g)
    ensures WalkRisk(g, id, hops) <= DECAY < MULE_RISK
  {
    UpperBound(g, id, hops, 1);
    assert Pow(DECAY, 1) == DECAY * Pow(DECAY, 0);
  }

  /** A positive walk value comes from a chain that fits in the hop budget. */
  lemma {:induction false} WalkChain(g: Graph, id: NodeId, hops: int) returns (p: seq<NodeId>)
    requires WalkRisk(g, id, hops) > 0.0 && GoodWeights(g)
    ensures ChainFrom(g, id, p) && |p| - 1 <= hops
    decreases hops
  {
    var o := WalkOrigin(g, id, hops);
    match o
    case FromSender(s) => p := [id, s];
    case FromFlagged(n) => p := [id, n];
    case FromWalk(n) =>
      PropagatedShrinks(WalkRisk(g, n, hops - 1), g.weight[(id, n)]);
      var rest := WalkChain(g, n, hops - 1);
      p := [id] + rest;
      assert p[1..] == rest;
  }

  /** An unflagged node at distance d <= hops scores between 0.8 * 0.06^d and 0.6^d. */
  lemma ScoreReflectsDistance(g: Graph, id: NodeId, hops: nat, d: nat)
    requires GoodWeights(g) && id in g.nodes && !Flagged(g, id)
    requires AtDistance(g, id, d) && d <= hops
    ensures MULE_RISK * Pow(0.06, d) <= Score(g, id, hops) <= Pow(DECAY, d)
  {
    var p :| ChainFrom(g, id, p) && |p| - 1 == d;
    SearchIsWalk(g, id, hops);
    LowerBound(g, p, hops);
    UpperBound(g, id, hops, d);
  }

  /** It scores 0 exactly when no flagged node is within hops. */
  lemma ScoreZeroIffIsolated(g: Graph, id: NodeId, hops: nat)
    requires GoodWeights(g) && id in g.nodes && !Flagged(g, id)
    ensures Score(g, id, hops) == 0.0 <==> Distant(g, id, hops + 1)
  {
    SearchIsWalk(g, id, hops);
    if Score(g, id, hops) > 0.0 {
      var p := WalkChain(g, id, hops);
      assert !Distant(g, id, hops + 1);
    }
    if !Distant(g, id, hops + 1) {
      var p :| ChainFrom(g, id, p) && |p| - 1 < hops + 1;
      LowerBound(g, p, hops);
      PowPositive(0.06, |p| - 1);
    }
  }

  /** Scores are ranked: an unflagged node never reaches a mule, a mule never a fraud node. */
  lemma ScoreRanks(g: Graph, id: NodeId, hops: nat)
    requires GoodWeights(g) && id in g.nodes
    ensures 0.0 <= Score(g, id, hops) <= 1.0
    ensures g.nodes[id].isFraud <==> Score(g, id, hops) == 1.0
    ensures Score(g, id, hops) > DECAY <==> Flagged(g, id)
  {
    if !Flagged(g, id) {
      SearchIsWalk(g, id, hops);
      WalkCeiling(g, id, hops);
    }
  }

  // ---------------------------------------------------------------- the score is the best chain

  /** A chain with the direction of its last edge. */
  datatype Chain = Chain(nodes: seq<NodeId>, reversed: bool)

  ghost predicate Connects(g: Graph, c: Chain)
    decreases |c.nodes|
  {
    && |c.nodes| >= 2
    && if |c.nodes| == 2 then
         Flagged(g, c.nodes[1]) && (if c.reversed then HasEdge(g, c.nodes[1], c.nodes[0]) else HasEdge(g, c.nodes[0], c.nodes[1]))
       else
         HasEdge(g, c.nodes[0], c.nodes[1]) && Connects(g, c.(nodes := c.nodes[1..]))
  }

  /** The product of the edge weights along a chain. */
  ghost function Weights(g: Graph, c: Chain): real
    requires Connects(g, c)
    decreases |c.nodes|
  {
    if |c.nodes| == 2 then
      if c.reversed then g.weight[(c.nodes[1], c.nodes[0])] else g.weight[(c.nodes[0], c.nodes[1])]
    else g.weight[(c.nodes[0], c.nodes[1])] * Weights(g, c.(nodes := c.nodes[1..]))
  }

  lemma {:induction false} EndIsFlagged(g: Graph, c: Chain)
    requires Connects(g, c)
    ensures Flagged(g, c.nodes[|c.nodes| - 1]) && c.nodes[0] in g.nodes
    decreases |c.nodes|
  {
    if |c.nodes| > 2 {
      EndIsFlagged(g, c.(nodes := c.nodes[1..]));
    }
  }

  /** What a chain of d edges is worth: 1 for a fraud node at its end or 0.8 for a mule, times 0.6 for
      every edge, times all the weights. */
  ghost function Worth(g: Graph, c: Chain): real
    requires Connects(g, c)
  {
    EndIsFlagged(g, c);
    (if g.nodes[c.nodes[|c.nodes| - 1]].isFraud then 1.0 else 0.8) * Pow(0.6, |c.nodes| - 1) * Weights(g, c)
  }

  lemma WorthOfEdge(g: Graph, c: Chain)
    requires Connects(g, c) && |c.nodes| == 2
    ensures var w := if c.reversed then g.weight[(c.nodes[1], c.nodes[0])] else g.weight[(c.nodes[0], c.nodes[1])];
      Worth(g, c) == Propagated(BaseRisk(g, c.nodes[1]), w)
  {
    assert Pow(0.6, 1) == 0.6 * Pow(0.6, 0);
  }

  lemma WorthOfStep(g: Graph, c: Chain)
    requires Connects(g, c) && |c.nodes| > 2
    ensures Worth(g, c) == Propagated(Worth(g, c.(nodes := c.nodes[1..])), g.weight[(c.nodes[0], c.nodes[1])])
  {
    EndIsFlagged(g, c);
    var tail := c.(nodes := c.nodes[1..]);
    var end := if g.nodes[c.nodes[|c.nodes| - 1]].isFraud then 1.0 else 0.8;
    Rescale(end, Pow(0.6, |c.nodes| - 2), Weights(g, tail), g.weight[(c.nodes[0], c.nodes[1])]);
    assert Pow(0.6, |c.nodes| - 1) == 0.6 * Pow(0.6, |c.nodes| - 2);
  }

  lemma Rescale(end: real, decay: real, weights: real, w: real)
    ensures end * (0.6 * decay) * (w * weights) == (end * decay * weights) * 0.6 * w
  {
    var x := end * decay;
    assert end * (0.6 * decay) == 0.6 * x;
    var y := x * weights;
    assert (0.6 * x) * (w * weights) == 0.6 * w * y;
  }

  /** No chain within the budget is worth more than the walk value. */
  lemma {:induction false} ChainBelowWalk(g: Graph, c: Chain, hops: int)
    requires GoodWeights(g) && Connects(g, c) && |c.nodes| - 1 <= hops
    ensures Worth(g, c) <= WalkRisk(g, c.nodes[0], hops)
    decreases |c.nodes|
  {
    hide WalkRisk, Worth, Propagated, Weights;
    var id, n := c.nodes[0], c.nodes[1];
    if |c.nodes| == 2 {
      WorthOfEdge(g, c);
      if c.reversed {
        SenderOffer(g, id, hops, {}, n);
      } else {
        WalkOffer(g, id, hops, n);
      }
    } else {
      var tail := c.(nodes := c.nodes[1..]);
      WorthOfStep(g, c);
      ChainBelowWalk(g, tail, hops - 1);
      WalkCeiling(g, n, hops - 1);
      WalkOffer(g, id, hops, n);
      PropagatedMonotone(Worth(g, tail), if Flagged(g, n) then BaseRisk(g, n) else WalkRisk(g, n, hops - 1), g.weight[(id, n)]);
    }
  }

  /** A positive walk value is what some chain within the budget is worth. */
  lemma {:induction false} WalkIsChain(g: Graph, id: NodeId, hops: int) returns (c: Chain)
    requires GoodWeights(g) && WalkRisk(g, id, hops) > 0.0
    ensures Connects(g, c) && c.nodes[0] == id && |c.nodes| - 1 <= hops
    ensures Worth(g, c) == WalkRisk(g, id, hops)
    decreases hops
  {
    hide WalkRisk, Worth, Propagated, Weights;
    var o := WalkOrigin(g, id, hops);
    match o
    case FromSender(s) =>
      c := Chain([id, s], true);
      WorthOfEdge(g, c);
    case FromFlagged(n) =>
      c := Chain([id, n], false);
      WorthOfEdge(g, c);
    case FromWalk(n) =>
      PropagatedShrinks(WalkRisk(g, n, hops - 1), g.weight[(id, n)]);
      PositiveFactor(WalkRisk(g, n, hops - 1), g.weight[(id, n)]);
      var tail := WalkIsChain(g, n, hops - 1);
      c := tail.(nodes := [id] + tail.nodes);
      assert c.nodes[1..] == tail.nodes && c.(nodes := c.nodes[1..]) == tail;
      WorthOfStep(g, c);
  }

  lemma PositiveFactor(x: real, w: real)
    requires Propagated(x, w) > 0.0 && x >= 0.0
    ensures x > 0.0
  {
  }

  /** A chain that the score of `id` takes into account. */
  ghost predicate Reaches(g: Graph, id: NodeId, c: Chain, hops: nat) {
    Connects(g, c) && c.nodes[0] == id && |c.nodes| - 1 <= hops
  }

  /** `risk` is the worth of the best chain from `id` of at most `hops` edges, or 0 without any. */
  ghost predicate IsBestChain(g: Graph, id: NodeId, hops: nat, risk: real) {
    && (forall c :: Reaches(g, id, c, hops) ==> Worth(g, c) <= risk)
    && (if exists c :: Reaches(g, id, c, hops) then exists c :: Reaches(g, id, c, hops) && Worth(g, c) == risk else risk == 0.0)
  }

  lemma {:induction false} WorthPositive(g: Graph, c: Chain)
    requires GoodWeights(g) && Connects(g, c)
    ensures Worth(g, c) > 0.0
    decreases |c.nodes|
  {
    hide Worth;
    if |c.nodes| == 2 {
      WorthOfEdge(g, c);
    } else {
      WorthOfStep(g, c);
      var tail := c.(nodes := c.nodes[1..]);
      WorthPositive(g, tail);
      var x, w := Worth(g, tail) * 0.6, g.weight[(c.nodes[0], c.nodes[1])];
      assert x * w > 0.0;
    }
  }

  /** An unflagged node scores the worth of its best chain. */
  lemma ScoreIsBestChain(g: Graph, id: NodeId, hops: nat)
    requires GoodWeights(g) && id in g.nodes && !Flagged(g, id)
    ensures IsBestChain(g, id, hops, Score(g, id, hops))
  {
    hide Worth, WalkRisk, SearchRisk, Connects;
    SearchIsWalk(g, id, hops);
    forall c | Reaches(g, id, c, hops)
      ensures 0.0 < Worth(g, c) <= Score(g, id, hops)
    {
      ChainBelowWalk(g, c, hops);
      WorthPositive(g, c);
    }
    if WalkRisk(g, id, hops) > 0.0 {
      var c := WalkIsChain(g, id, hops);
      assert Reaches(g, id, c, hops);
    } else {
      WalkNonNegative(g, id, hops);
    }
  }

  lemma WalkNonNegative(g: Graph, id: NodeId, hops: int)
    ensures WalkRisk(g, id, hops) >= 0.0
  {
  }

  // ---------------------------------------------------------------- marking

  /** The graph after `id` is marked; an unknown node is created first. */
  function Marked(g: Graph, id: NodeId, fraud: bool): Graph {
    var n := if id in g.nodes then g.nodes[id] else Node(false, false);
    g.(nodes := g.nodes[id := if fraud then n.(isFraud := true) else n.(isMule := true)])
  }

  lemma MarkedKeepsOffers(g: Graph, m: NodeId, fraud: bool, id: NodeId)
    ensures Marked(g, m, fraud).weight == g.weight
    ensures Successors(g, id) <= Successors(Marked(g, m, fraud), id)
    ensures FlaggedSenders(g, id) <= FlaggedSenders(Marked(g, m, fraud), id)
    ensures forall n :: n in g.nodes ==> n in Marked(g, m, fraud).nodes && BaseRisk(g, n) <= BaseRisk(Marked(g, m, fraud), n)
    ensures forall n :: Flagged(g, n) ==> Flagged(Marked(g, m, fraud), n)
  {
  }

  lemma {:induction false} WalkRisesUnderMarking(g: Graph, m: NodeId, fraud: bool, id: NodeId, hops: int)
    requires GoodWeights(g)
    ensures WalkRisk(g, id, hops) <= WalkRisk(Marked(g, m, fraud), id, hops)
    decreases hops
  {
    hide *;
    if WalkRisk(g, id, hops) > 0.0 {
      MarkedKeepsOffers(g, m, fraud, id);
      var o := WalkOrigin(g, id, hops);
      match o
      case FromSender(s) => SenderRises(g, m, fraud, id, hops, s);
      case FromFlagged(n) => SuccessorRises(g, m, fraud, id, hops, n, BaseRisk(g, n));
      case FromWalk(n) =>
        WalkRisesUnderMarking(g, m, fraud, n, hops - 1);
        WalkCeiling(g, n, hops - 1);
        SuccessorRises(g, m, fraud, id, hops, n, WalkRisk(g, n, hops - 1));
    }
  }

  lemma SenderRises(g: Graph, m: NodeId, fraud: bool, id: NodeId, hops: int, s: NodeId)
    requires GoodWeights(g) && hops > 0 && id in g.nodes && s in FlaggedSenders(g, id)
    ensures Propagated(BaseRisk(g, s), g.weight[(s, id)]) <= WalkRisk(Marked(g, m, fraud), id, hops)
  {
    var g' := Marked(g, m, fraud);
    MarkedKeepsOffers(g, m, fraud, id);
    SenderOffer(g', id, hops, {}, s);
    PropagatedMonotone(BaseRisk(g, s), BaseRisk(g', s), g.weight[(s, id)]);
  }

  lemma SuccessorRises(g: Graph, m: NodeId, fraud: bool, id: NodeId, hops: int, n: NodeId, risk: real)
    requires GoodWeights(g) && hops > 0 && id in g.nodes && n in Successors(g, id)
    requires Flagged(g, n) ==> risk == BaseRisk(g, n)
    requires !Flagged(g, n) ==> risk <= MULE_RISK && risk <= WalkRisk(Marked(g, m, fraud), n, hops - 1)
    ensures Propagated(risk, g.weight[(id, n)]) <= WalkRisk(Marked(g, m, fraud), id, hops)
  {
    var g' := Marked(g, m, fraud);
    MarkedKeepsOffers(g, m, fraud, id);
    WalkOffer(g', id, hops, n);
    PropagatedMonotone(risk, if Flagged(g', n) then BaseRisk(g', n) else WalkRisk(g', n, hops - 1), g.weight[(id, n)]);
  }

  /** Marking a node never lowers the score of any node already in the graph. */
  lemma MarkingNeverLowersScores(g: Graph, m: NodeId, fraud: bool, id: NodeId, hops: nat)
    requires GoodWeights(g) && id in g.nodes
    ensures Score(g, id, hops) <= Score(Marked(g, m, fraud), id, hops)
  {
    var g' := Marked(g, m, fraud);
    SearchIsWalk(g, id, hops);
    SearchIsWalk(g', id, hops);
    WalkRisesUnderMarking(g, m, fraud, id, hops);
    ScoreRanks(g, id, hops);
  }

  /** Marking does reach the marked node itself. */
  lemma MarkingFlags(g: Graph, m: NodeId, fraud: bool, hops: nat)
    requires GoodWeights(g)
    ensures Score(Marked(g, m, fraud), m, hops) >= if fraud then FRAUD_RISK else MULE_RISK
  {
  }
}
