/** The mutable payment graph of fraud/gnn.go: nodes and edges are shared objects, every edge is
    reachable both from its sender and from the reverse index, and scores are cached per node. */
module FraudGraph {
  import opened FraudRisk
  import opened FraudCache
  import FraudScores
  import opened Wrappers

  const MAX_GRAPH_SIZE := 10000
  const NANOS_PER_HOUR := 3_600_000_000_000
  const RETENTION := 30 * 24 * NANOS_PER_HOUR

  datatype NodeState = NodeState(isFraud: bool, isMule: bool, riskScore: real, lastUpdate: int)

  datatype EdgeState = EdgeState(txCount: nat, totalAmt: int, firstTxAt: int, lastTxAt: int, weight: real)

  datatype GraphState = GraphState(nodes: map<NodeId, NodeState>, edges: map<(NodeId, NodeId), EdgeState>)

  // ---------------------------------------------------------------- edge weights

  /** Two's-complement wrap-around of an int64 sum. */
  function Wrap64(x: int): int {
    (x + 0x8000_0000_0000_0000) % 0x1_0000_0000_0000_0000 - 0x8000_0000_0000_0000
  }

  /** Instants are nanoseconds since Go's zero time, so IsZero is `== 0`. */
  function StructuringWeight(txCount: nat, totalAmt: int, firstTxAt: int, lastTxAt: int): (w: real)
    ensures w <= 1.0
    ensures txCount >= 1 ==> w >= 0.1
    ensures txCount >= 10 || totalAmt >= 100_000_000 ==> w == 1.0
  {
    var countSignal := txCount as real / 10.0;
    var amtSignal := totalAmt as real / 100_000_000.0;
    var velSignal :=
      if txCount >= 2 && firstTxAt != 0 then
        var days := (lastTxAt - firstTxAt) as real / (24.0 * NANOS_PER_HOUR as real);
        txCount as real / (if days < 1.0 / 24.0 then 1.0 / 24.0 else days) / 10.0
      else 0.0;
    var signal := Max(countSignal, Max(amtSignal, velSignal));
    if signal < 1.0 then signal else 1.0
  }

  lemma WrapMeans(x: int)
    ensures -0x8000_0000_0000_0000 <= Wrap64(x) < 0x8000_0000_0000_0000
    ensures (Wrap64(x) - x) % 0x1_0000_0000_0000_0000 == 0
    ensures -0x8000_0000_0000_0000 <= x < 0x8000_0000_0000_0000 ==> Wrap64(x) == x
  {
    var m := 0x1_0000_0000_0000_0000;
    var q := (x + 0x8000_0000_0000_0000) / m;
    assert Wrap64(x) - x == -q * m;
  }

  lemma WrapAdds(x: int, y: int)
    ensures Wrap64(Wrap64(x) + y) == Wrap64(x + y)
  {
    var m, h := 0x1_0000_0000_0000_0000, 0x8000_0000_0000_0000;
    var q := (x + h) / m;
    assert Wrap64(x) + y + h == x + y + h + (-q) * m;
    ModShift(x + y + h, -q, m);
  }

  lemma ModShift(x: int, q: int, m: int)
    requires m > 0
    ensures (x + q * m) % m == x % m
  {
    var a, b := x % m, (x + q * m) % m;
    var d := x / m + q - (x + q * m) / m;
    assert d * m == b - a;
    assert d > 0 ==> d * m >= m;
    assert d < 0 ==> d * m <= -m;
  }

  /** A weight reaches a level exactly when one of three things does: the count in tens, the total in
      ten lakh rupees, or, from the second transfer on, the transfers a day in tens, where less than
      an hour counts as one. */
  lemma WeightReaches(txCount: nat, totalAmt: int, firstTxAt: int, lastTxAt: int, level: real)
    requires 0.0 < level <= 1.0
    ensures
      var span := if lastTxAt - firstTxAt < 3_600_000_000_000 then 3_600_000_000_000 else lastTxAt - firstTxAt;
      StructuringWeight(txCount, totalAmt, firstTxAt, lastTxAt) >= level <==>
        || txCount as real >= 10.0 * level
        || totalAmt as real >= 100_000_000.0 * level
        || (txCount >= 2 && firstTxAt != 0 && txCount as real * 86_400_000_000_000.0 >= 10.0 * level * span as real)
  {
    var span := if lastTxAt - firstTxAt < 3_600_000_000_000 then 3_600_000_000_000 else lastTxAt - firstTxAt;
    if txCount >= 2 && firstTxAt != 0 {
      var days := (lastTxAt - firstTxAt) as real / (24.0 * NANOS_PER_HOUR as real);
      var used := if days < 1.0 / 24.0 then 1.0 / 24.0 else days;
      assert used == span as real / 86_400_000_000_000.0;
      RateReaches(txCount as real, span as real, used, level);
    }
  }

  lemma RateReaches(n: real, span: real, days: real, level: real)
    requires span > 0.0 && days == span / 86_400_000_000_000.0
    ensures n / days / 10.0 >= level <==> n * 86_400_000_000_000.0 >= 10.0 * level * span
  {
    var rate := n / days;
    assert rate * days == n;
    assert n * 86_400_000_000_000.0 == rate * span;
    var d := rate - 10.0 * level;
    assert rate * span - 10.0 * level * span == d * span;
    assert d >= 0.0 ==> d * span >= 0.0;
    assert d < 0.0 ==> d * span < 0.0;
  }

  /** One more transfer of `amount` over an edge. */
  function Transfer(e: EdgeState, amount: int, now: int): EdgeState {
    var txCount, totalAmt := e.txCount + 1, Wrap64(e.totalAmt + amount);
    EdgeState(txCount, totalAmt, e.firstTxAt, now, StructuringWeight(txCount, totalAmt, e.firstTxAt, now))
  }

  // ---------------------------------------------------------------- the operations on values

  ghost function Seeded(st: GraphState, ids: seq<NodeId>, seed: NodeState): GraphState {
    st.(nodes := st.nodes + map id | id in ids :: seed)
  }

  lemma SeededStep(st: GraphState, ids: seq<NodeId>, i: nat, seed: NodeState)
    requires i < |ids|
    ensures var before := Seeded(st, ids[..i], seed);
      Seeded(st, ids[..i + 1], seed) == before.(nodes := before.nodes[ids[i] := seed])
  {
    assert forall id :: id in ids[..i + 1] <==> id in ids[..i] || id == ids[i];
  }

  ghost function WithNode(st: GraphState, id: NodeId, now: int): GraphState {
    if id in st.nodes then st else st.(nodes := st.nodes[id := NodeState(false, false, 0.0, now)])
  }

  ghost function WithEdge(st: GraphState, from: NodeId, to: NodeId, now: int): GraphState {
    if (from, to) in st.edges then st else st.(edges := st.edges[(from, to) := EdgeState(0, 0, now, 0, 0.0)])
  }

  ghost function WithTransfer(st: GraphState, from: NodeId, to: NodeId, amount: int, now: int): GraphState {
    var st' := WithEdge(st, from, to, now);
    st'.(edges := st'.edges[(from, to) := Transfer(st'.edges[(from, to)], amount, now)])
  }

  ghost predicate Stale(st: GraphState, id: NodeId, cutoff: int) {
    && id in st.nodes
    && !st.nodes[id].isFraud && !st.nodes[id].isMule
    && st.nodes[id].lastUpdate < cutoff
  }

  ghost function Without(st: GraphState, gone: set<NodeId>): GraphState {
    GraphState(
      map id | id in st.nodes && id !in gone :: st.nodes[id],
      map e | e in st.edges && e.0 !in gone && e.1 !in gone :: st.edges[e])
  }

  ghost function StaleNodes(st: GraphState, cutoff: int): (ids: set<NodeId>)
    ensures ids <= st.nodes.Keys && forall id :: id in ids <==> Stale(st, id, cutoff)
  {
    set id | id in st.nodes && Stale(st, id, cutoff)
  }

  ghost function Pruned(st: GraphState, cutoff: int): GraphState {
    Without(st, StaleNodes(st, cutoff))
  }

  ghost function PrunedIfFull(st: GraphState, now: int): GraphState {
    if |st.nodes| >= MAX_GRAPH_SIZE then Pruned(st, now - RETENTION) else st
  }

  ghost function AfterTransaction(st: GraphState, from: NodeId, to: NodeId, amount: int, now: int): GraphState {
    WithTransfer(WithNode(WithNode(PrunedIfFull(st, now), from, now), to, now), from, to, amount, now)
  }

  ghost function AfterMarking(st: GraphState, id: NodeId, fraud: bool, now: int): GraphState {
    var st' := WithNode(st, id, now);
    var n := st'.nodes[id];
    st'.(nodes := st'.nodes[id :=
      if fraud then n.(isFraud := true, riskScore := FRAUD_RISK)
      else n.(isMule := true, riskScore := Max(n.riskScore, MULE_RISK))])
  }

  /** The part of the state that scores depend on. */
  ghost function RiskView(st: GraphState): Graph {
    Graph(map id | id in st.nodes :: Node(st.nodes[id].isFraud, st.nodes[id].isMule),
          map e | e in st.edges :: st.edges[e].weight)
  }

  /** Edges join known nodes. */
  ghost predicate Joined(st: GraphState) {
    forall e :: e in st.edges ==> e.0 in st.nodes && e.1 in st.nodes
  }

  /** Weights are in the range structuringWeight gives. */
  ghost predicate WellWeighted(st: GraphState) {
    forall e :: e in st.edges ==> 0.1 <= st.edges[e].weight <= 1.0
  }

  lemma TransactionKeepsWeights(st: GraphState, from: NodeId, to: NodeId, amount: int, now: int)
    requires WellWeighted(st)
    ensures WellWeighted(AfterTransaction(st, from, to, amount, now))
  {
  }

  lemma WithoutNothing(st: GraphState)
    ensures Without(st, {}) == st
  {
  }

  lemma WithoutKeeps(st: GraphState, gone: set<NodeId>, id: NodeId)
    ensures id in Without(st, gone).nodes ==> id in st.nodes && Without(st, gone).nodes[id] == st.nodes[id]
  {
  }

  lemma WithoutOneMore(st: GraphState, gone: set<NodeId>, id: NodeId)
    ensures Without(Without(st, gone), {id}) == Without(st, gone + {id})
  {
  }

  /** Pruning forgets only what it says: no flagged node, no edge between two kept nodes. */
  lemma PruneKeepsFlagged(st: GraphState, cutoff: int, id: NodeId)
    requires Flagged(RiskView(st), id)
    ensures id in Pruned(st, cutoff).nodes && Pruned(st, cutoff).nodes[id] == st.nodes[id]
  {
  }

  // ---------------------------------------------------------------- what the operations do, field by field

  /** Pruning keeps exactly the flagged nodes and those created in the last 30 days, and the edges
      among them; a transaction prunes from 10000 nodes on. */
  lemma PruneMeans(st: GraphState, now: int)
    ensures var kept := PrunedIfFull(st, now);
      && (forall id :: id in kept.nodes <==>
            (id in st.nodes &&
             (|st.nodes| < 10_000 || st.nodes[id].isFraud || st.nodes[id].isMule || now - st.nodes[id].lastUpdate <= 2_592_000_000_000_000)))
      && (forall id :: id in kept.nodes ==> kept.nodes[id] == st.nodes[id])
      && (Joined(st) ==> forall e :: e in kept.edges <==> e in st.edges && e.0 in kept.nodes && e.1 in kept.nodes)
      && (forall e :: e in kept.edges ==> kept.edges[e] == st.edges[e])
  {
  }

  /** After the prune a transaction adds what is missing and one transfer, and nothing else. */
  lemma TransactionMeans(st: GraphState, from: NodeId, to: NodeId, amount: int, now: int)
    ensures var kept, after := PrunedIfFull(st, now), AfterTransaction(st, from, to, amount, now);
      && after.nodes.Keys == kept.nodes.Keys + {from, to}
      && (forall id :: id in after.nodes ==> after.nodes[id] == if id in kept.nodes then kept.nodes[id] else NodeState(false, false, 0.0, now))
      && after.edges.Keys == kept.edges.Keys + {(from, to)}
      && (forall e :: e in kept.edges && e != (from, to) ==> after.edges[e] == kept.edges[e])
      && var e := after.edges[(from, to)];
         && e.lastTxAt == now
         && e.weight == StructuringWeight(e.txCount, e.totalAmt, e.firstTxAt, e.lastTxAt)
         && if (from, to) in kept.edges then
              var old' := kept.edges[(from, to)];
              e.txCount == old'.txCount + 1 && e.totalAmt == Wrap64(old'.totalAmt + amount) && e.firstTxAt == old'.firstTxAt
            else e.txCount == 1 && e.totalAmt == Wrap64(amount) && e.firstTxAt == now
  {
    hide PrunedIfFull, StructuringWeight, Wrap64;
  }

  /** A marking adds the node when it is missing, raises its flag and its stored risk, and touches
      nothing else. */
  lemma MarkingMeans(st: GraphState, id: NodeId, fraud: bool, now: int)
    ensures var after := AfterMarking(st, id, fraud, now);
      && after.edges == st.edges && after.nodes.Keys == st.nodes.Keys + {id}
      && (forall n :: n in st.nodes && n != id ==> after.nodes[n] == st.nodes[n])
      && var before, n := if id in st.nodes then st.nodes[id] else NodeState(false, false, 0.0, now), after.nodes[id];
         && n.lastUpdate == before.lastUpdate
         && n.isFraud == (before.isFraud || fraud) && n.isMule == (before.isMule || !fraud)
         && (fraud ==> n.riskScore == 1.0)
         && (!fraud ==> n.riskScore >= 0.8 && n.riskScore >= before.riskScore && n.riskScore in {0.8, before.riskScore})
  {
  }

  /** Seeding flags the known ids, and an id in both lists is a mule. */
  lemma SeedingMeans(fraudIds: seq<NodeId>, muleIds: seq<NodeId>, now: int)
    ensures var st := Seeded(Seeded(GraphState(map[], map[]), fraudIds, NodeState(true, false, FRAUD_RISK, now)),
                             muleIds, NodeState(false, true, MULE_RISK, now));
      && st.edges == map[]
      && (forall id :: id in st.nodes <==> id in fraudIds || id in muleIds)
      && (forall id :: id in muleIds ==> st.nodes[id] == NodeState(false, true, 0.8, now))
      && (forall id :: id in fraudIds && id !in muleIds ==> st.nodes[id] == NodeState(true, false, 1.0, now))
  {
  }

  /** What scores are computed from: the flags and weights of the state, and nothing else. */
  lemma ViewMeans(st: GraphState)
    ensures var g := RiskView(st);
      && g.nodes.Keys == st.nodes.Keys && g.weight.Keys == st.edges.Keys
      && (forall id :: id in st.nodes ==> g.nodes[id].isFraud == st.nodes[id].isFraud && g.nodes[id].isMule == st.nodes[id].isMule)
      && (forall e :: e in st.edges ==> g.weight[e] == st.edges[e].weight)
  {
  }

  /** The answer about a recipient: the prior for an unknown one, 1 for fraud, 0.8 for a mule, and the
      worth of the best chain of at most three edges for any other. */
  ghost predicate Answers(st: GraphState, id: NodeId, prior: real, risk: real) {
    if id !in st.nodes then risk == prior
    else if st.nodes[id].isFraud then risk == 1.0
    else if st.nodes[id].isMule then risk == 0.8
    else FraudScores.IsBestChain(RiskView(st), id, 3, risk)
  }

  lemma UncachedAnswers(s: Shared, st: GraphState, id: NodeId, prior: real)
    requires WellWeighted(st) && s.graph == RiskView(st)
    ensures Answers(st, id, prior, Uncached(s, id, prior))
  {
    hide SearchRisk, FraudScores.IsBestChain;
    if id in st.nodes && !Flagged(RiskView(st), id) {
      FraudScores.ScoreIsBestChain(RiskView(st), id, MAX_HOPS);
    }
  }

  // ---------------------------------------------------------------- when a node is forgotten

  datatype GraphOp =
    | Transaction(from: NodeId, to: NodeId, amount: int, now: int)
    | Marking(id: NodeId, fraud: bool, now: int)

  ghost function Operated(st: GraphState, op: GraphOp): GraphState {
    match op
    case Transaction(from, to, amount, now) => AfterTransaction(st, from, to, amount, now)
    case Marking(id, fraud, now) => AfterMarking(st, id, fraud, now)
  }

  /** The graph once an operation has pruned, if it does. */
  ghost function Kept(st: GraphState, op: GraphOp): GraphState {
    if op.Transaction? then PrunedIfFull(st, op.now) else st
  }

  ghost function RunOf(st: GraphState, ops: seq<GraphOp>): GraphState
    decreases |ops|
  {
    if ops == [] then st else RunOf(Operated(st, ops[0]), ops[1..])
  }

  /** No prune of the run drops `id`. */
  ghost predicate Spared(st: GraphState, ops: seq<GraphOp>, id: NodeId)
    decreases |ops|
  {
    ops == [] || (id in Kept(st, ops[0]).nodes && Spared(Operated(st, ops[0]), ops[1..], id))
  }

  /** Operations never change the stamp of a node that is there, and stamp a new one. */
  lemma OperatedStamps(st: GraphState, op: GraphOp, id: NodeId)
    ensures id in Kept(st, op).nodes ==>
      id in Operated(st, op).nodes && Operated(st, op).nodes[id].lastUpdate == Kept(st, op).nodes[id].lastUpdate
    ensures id !in Kept(st, op).nodes && id in Operated(st, op).nodes ==> Operated(st, op).nodes[id].lastUpdate == op.now
  {
    hide PrunedIfFull, Transfer, Max;
  }

  lemma KeptIsOld(st: GraphState, op: GraphOp, id: NodeId)
    requires id in Kept(st, op).nodes
    ensures id in st.nodes && Kept(st, op).nodes[id] == st.nodes[id]
  {
  }

  /** However often it pays, is paid or is marked, a node keeps the stamp of its creation. */
  lemma {:induction false} StampLasts(st: GraphState, ops: seq<GraphOp>, id: NodeId)
    requires id in st.nodes && Spared(st, ops, id)
    ensures id in RunOf(st, ops).nodes && RunOf(st, ops).nodes[id].lastUpdate == st.nodes[id].lastUpdate
    decreases |ops|
  {
    hide Operated, Kept;
    if ops != [] {
      OperatedStamps(st, ops[0], id);
      KeptIsOld(st, ops[0], id);
      StampLasts(Operated(st, ops[0]), ops[1..], id);
    }
  }

  /** So a full graph drops it at the next transaction exactly when it is not flagged and was
      created more than the retention ago, whatever it did since. */
  lemma AgeDecides(st: GraphState, first: GraphOp, ops: seq<GraphOp>, id: NodeId, next: GraphOp)
    requires id !in Kept(st, first).nodes && id in Operated(st, first).nodes
    requires Spared(Operated(st, first), ops, id)
    requires next.Transaction? && |RunOf(Operated(st, first), ops).nodes| >= MAX_GRAPH_SIZE
    ensures var end := RunOf(Operated(st, first), ops);
      id in end.nodes &&
      (id !in Kept(end, next).nodes <==> !Flagged(RiskView(end), id) && first.now < next.now - RETENTION)
  {
    hide Operated, RunOf, Spared;
    OperatedStamps(st, first, id);
    StampLasts(Operated(st, first), ops, id);
  }

  /** How often, and how much in all, s paid t in a run; and when last. */
  function Payments(ops: seq<GraphOp>, s: NodeId, t: NodeId): nat {
    if ops == [] then 0
    else (if ops[0].Transaction? && ops[0].from == s && ops[0].to == t then 1 else 0) + Payments(ops[1..], s, t)
  }

  function Amounts(ops: seq<GraphOp>, s: NodeId, t: NodeId): int {
    if ops == [] then 0
    else (if ops[0].Transaction? && ops[0].from == s && ops[0].to == t then ops[0].amount else 0) + Amounts(ops[1..], s, t)
  }

  /** While both ends are there an edge counts every transfer of the run and adds up its amounts, as
      far as 64 bits go, and keeps its first instant. */
  lemma {:induction false} EdgeAccumulates(st: GraphState, ops: seq<GraphOp>, s: NodeId, t: NodeId)
    requires (s, t) in st.edges && Spared(st, ops, s) && Spared(st, ops, t)
    requires Wrap64(st.edges[(s, t)].totalAmt) == st.edges[(s, t)].totalAmt
    ensures (s, t) in RunOf(st, ops).edges
    ensures var e, e' := st.edges[(s, t)], RunOf(st, ops).edges[(s, t)];
      && e'.txCount == e.txCount + Payments(ops, s, t)
      && e'.totalAmt == Wrap64(e.totalAmt + Amounts(ops, s, t))
      && e'.firstTxAt == e.firstTxAt
    decreases |ops|
  {
    hide Operated, Kept, Wrap64;
    if ops != [] {
      var next := Operated(st, ops[0]);
      EdgeStep(st, ops[0], s, t);
      EdgeAccumulates(next, ops[1..], s, t);
      var amount := if ops[0].Transaction? && ops[0].from == s && ops[0].to == t then ops[0].amount else 0;
      WrapAdds(st.edges[(s, t)].totalAmt + amount, Amounts(ops[1..], s, t));
    }
  }

  lemma EdgeStep(st: GraphState, op: GraphOp, s: NodeId, t: NodeId)
    requires (s, t) in st.edges && s in Kept(st, op).nodes && t in Kept(st, op).nodes
    requires Wrap64(st.edges[(s, t)].totalAmt) == st.edges[(s, t)].totalAmt
    ensures (s, t) in Operated(st, op).edges
    ensures var e, e', own := st.edges[(s, t)], Operated(st, op).edges[(s, t)], op.Transaction? && op.from == s && op.to == t;
      && e'.txCount == e.txCount + (if own then 1 else 0)
      && e'.totalAmt == Wrap64(e.totalAmt + if own then op.amount else 0)
      && e'.firstTxAt == e.firstTxAt
      && Wrap64(e'.totalAmt) == e'.totalAmt
  {
    hide StructuringWeight, Wrap64, AfterTransaction, AfterMarking, PrunedIfFull, Stale;
    var e := st.edges[(s, t)];
    WrapAdds(e.totalAmt + (if op.Transaction? then op.amount else 0), 0);
    match op
    case Transaction(from, to, amount, now) =>
      EdgeKept(st, now, s, t);
      TransactionMeans(st, from, to, amount, now);
    case Marking(id, fraud, now) => MarkingMeans(st, id, fraud, now);
  }

  lemma EdgeKept(st: GraphState, now: int, s: NodeId, t: NodeId)
    requires (s, t) in st.edges && s in PrunedIfFull(st, now).nodes && t in PrunedIfFull(st, now).nodes
    ensures (s, t) in PrunedIfFull(st, now).edges && PrunedIfFull(st, now).edges[(s, t)] == st.edges[(s, t)]
  {
  }

  /** A payment does not help: a node whose payment fills the graph can be the next to go. */
  lemma PayerIsForgotten(st: GraphState, id: NodeId, to: NodeId, amount: int, now: int)
    requires |st.nodes| == MAX_GRAPH_SIZE - 1 && to !in st.nodes && Stale(st, id, now - RETENTION)
    ensures var paid := AfterTransaction(st, id, to, amount, now);
      && (id, to) in paid.edges && paid.edges[(id, to)].lastTxAt == now
      && id in paid.nodes && id !in PrunedIfFull(paid, now).nodes
  {
    var paid := AfterTransaction(st, id, to, amount, now);
    assert paid.nodes.Keys == st.nodes.Keys + {to};
    assert |paid.nodes| == |paid.nodes.Keys| == |st.nodes.Keys| + 1;
  }

  // ---------------------------------------------------------------- the representation

  /** Edge records are shared: an EdgeRef is the address of one in the graph's edge store, and
      the forward map of the sender and the reverse index both hold that address. */
  datatype EdgeRef = EdgeRef(address: nat)

  datatype GraphNode = GraphNode(state: NodeState, edges: map<NodeId, EdgeRef>)

  /** All edges, by sender and target. */
  type EdgeMap = map<(NodeId, NodeId), EdgeRef>

  /** `out` holds exactly the edges that leave `s`. */
  ghost predicate OutAgrees(out: map<NodeId, EdgeRef>, s: NodeId, links: EdgeMap) {
    && (forall t :: t in out ==> (s, t) in links && links[(s, t)] == out[t])
    && (forall e :: e in links && e.0 == s ==> e.1 in out)
  }

  /** Forward maps: nodes[s].edges[t] exists exactly when the edge s -> t does. */
  ghost predicate Forward(nodes: map<NodeId, GraphNode>, states: map<NodeId, NodeState>, links: EdgeMap) {
    && nodes.Keys == states.Keys
    && forall s :: s in nodes ==> nodes[s].state == states[s] && OutAgrees(nodes[s].edges, s, links)
  }

  /** Reverse index: inEdges[t][s] exists exactly when the edge s -> t does, and is the same
      record; no inner map is empty. */
  ghost predicate Reverse(index: map<NodeId, map<NodeId, EdgeRef>>, links: EdgeMap) {
    && (forall t, s :: t in index && s in index[t] ==> (s, t) in links && links[(s, t)] == index[t][s])
    && (forall e :: e in links ==> e.1 in index && e.0 in index[e.1])
    && (forall t :: t in index ==> index[t] != map[])
  }

  /** The store holds each edge's value, and no two edges share a record. */
  ghost predicate Stored(store: map<EdgeRef, EdgeState>, links: EdgeMap, edges: map<(NodeId, NodeId), EdgeState>) {
    && links.Keys == edges.Keys
    && (forall e :: e in links ==> links[e] in store && store[links[e]] == edges[e])
    && (forall e, f :: e in links && f in links && links[e] == links[f] ==> e == f)
  }

  lemma EmptyGraph()
    ensures Forward(map[], map[], map[]) && Reverse(map[], map[]) && Stored(map[], map[], map[])
    ensures Joined(GraphState(map[], map[]))
    ensures forall g :: Sound(Shared(g, 0, map[]))
  {
  }

  /** A seeded graph has no edges. */
  lemma SeededIsUnlinked(st: GraphState, ids: seq<NodeId>, seed: NodeState)
    requires st.edges == map[]
    ensures Seeded(st, ids, seed).edges == map[] && WellWeighted(Seeded(st, ids, seed))
  {
  }

  /** inEdges[to], or the empty map that the source puts there first. */
  function Senders(index: map<NodeId, map<NodeId, EdgeRef>>, to: NodeId): map<NodeId, EdgeRef> {
    if to in index then index[to] else map[]
  }

  lemma ForwardExtends(nodes: map<NodeId, GraphNode>, states: map<NodeId, NodeState>, links: EdgeMap, e: (NodeId, NodeId), edge: EdgeRef)
    requires Forward(nodes, states, links) && e !in links && e.0 in nodes
    ensures Forward(nodes[e.0 := nodes[e.0].(edges := nodes[e.0].edges[e.1 := edge])], states, links[e := edge])
  {
  }

  lemma ReverseExtends(index: map<NodeId, map<NodeId, EdgeRef>>, links: EdgeMap, e: (NodeId, NodeId), edge: EdgeRef)
    requires Reverse(index, links) && e !in links
    ensures Reverse(index[e.1 := Senders(index, e.1)[e.0 := edge]], links[e := edge])
  {
    assert e.0 in Senders(index, e.1)[e.0 := edge];
  }

  lemma StoredExtends(store: map<EdgeRef, EdgeState>, links: EdgeMap, edges: map<(NodeId, NodeId), EdgeState>, e: (NodeId, NodeId), edge: EdgeRef, state: EdgeState)
    requires Stored(store, links, edges) && e !in links && edge !in store
    ensures Stored(store[edge := state], links[e := edge], edges[e := state])
  {
  }

  lemma StoredUpdates(store: map<EdgeRef, EdgeState>, links: EdgeMap, edges: map<(NodeId, NodeId), EdgeState>, e: (NodeId, NodeId), state: EdgeState)
    requires Stored(store, links, edges) && e in links
    ensures Stored(store[links[e] := state], links, edges[e := state])
  {
  }

  lemma ForwardPuts(nodes: map<NodeId, GraphNode>, states: map<NodeId, NodeState>, links: EdgeMap, id: NodeId, state: NodeState)
    requires Forward(nodes, states, links) && forall t :: (id, t) !in links
    ensures Forward(nodes[id := GraphNode(state, map[])], states[id := state], links)
  {
    assert forall e :: e in links ==> e == (e.0, e.1);
  }

  lemma JoinedPuts(st: GraphState, id: NodeId, state: NodeState)
    requires Joined(st)
    ensures Joined(st.(nodes := st.nodes[id := state]))
  {
  }

  lemma ForwardUpdates(nodes: map<NodeId, GraphNode>, states: map<NodeId, NodeState>, links: EdgeMap, id: NodeId, state: NodeState)
    requires Forward(nodes, states, links) && id in nodes
    ensures Forward(nodes[id := nodes[id].(state := state)], states[id := state], links)
  {
  }

  // ---------------------------------------------------------------- removing a node

  ghost function LinksWithout(links: EdgeMap, id: NodeId): EdgeMap {
    map e | e in links && e.0 != id && e.1 != id :: links[e]
  }

  /** The edges that are left when, of those leaving `id`, only the ones to `targets` are. */
  ghost function TargetsLeft(links: EdgeMap, id: NodeId, targets: set<NodeId>): EdgeMap {
    map e | e in links && (e.0 == id ==> e.1 in targets) :: links[e]
  }

  /** The edges that are left when, of those other nodes send to `id`, only the ones from
      `senders` are. */
  ghost function SendersLeft(links: EdgeMap, id: NodeId, senders: set<NodeId>): EdgeMap {
    map e | e in links && (e.1 == id && e.0 != id ==> e.0 in senders) :: links[e]
  }

  /** The index without one edge, and without its row when that becomes empty. */
  function Unlinked(index: map<NodeId, map<NodeId, EdgeRef>>, e: (NodeId, NodeId)): map<NodeId, map<NodeId, EdgeRef>> {
    if e.1 !in index then index
    else
      var row := index[e.1] - {e.0};
      if row == map[] then index - {e.1} else index[e.1 := row]
  }

  lemma ReverseRemoves(index: map<NodeId, map<NodeId, EdgeRef>>, links: EdgeMap, e: (NodeId, NodeId))
    requires Reverse(index, links)
    ensures Reverse(Unlinked(index, e), links - {e})
  {
    if e.1 in index {
      var row := index[e.1] - {e.0};
      forall s | s in index[e.1]
        ensures s != e.0 ==> s in row
      {
      }
    }
  }

  lemma ForwardRemoves(nodes: map<NodeId, GraphNode>, states: map<NodeId, NodeState>, links: EdgeMap, e: (NodeId, NodeId))
    requires Forward(nodes, states, links) && e.0 in nodes
    ensures Forward(nodes[e.0 := nodes[e.0].(edges := nodes[e.0].edges - {e.1})], states, links - {e})
  {
  }

  lemma OneTargetLess(links: EdgeMap, id: NodeId, targets: set<NodeId>, t: NodeId)
    requires t in targets
    ensures TargetsLeft(links, id, targets) - {(id, t)} == TargetsLeft(links, id, targets - {t})
  {
  }

  lemma OneSenderLess(links: EdgeMap, id: NodeId, senders: set<NodeId>, s: NodeId)
    requires s in senders && s != id
    ensures SendersLeft(links, id, senders) - {(s, id)} == SendersLeft(links, id, senders - {s})
  {
  }

  lemma AllTargetsLeft(nodes: map<NodeId, GraphNode>, states: map<NodeId, NodeState>, id: NodeId, links: EdgeMap)
    requires Forward(nodes, states, links) && id in nodes
    ensures TargetsLeft(links, id, nodes[id].edges.Keys) == links
  {
    assert OutAgrees(nodes[id].edges, id, links);
  }

  lemma AllSendersLeft(index: map<NodeId, map<NodeId, EdgeRef>>, id: NodeId, links: EdgeMap)
    requires Reverse(index, TargetsLeft(links, id, {}))
    ensures SendersLeft(links, id, Senders(index, id).Keys) == links
    ensures forall s :: s in Senders(index, id) ==> s != id && (s, id) in links
  {
    var left := TargetsLeft(links, id, {});
    assert forall s :: s in Senders(index, id) ==> (s, id) in left;
    assert forall e :: e in links && e.1 == id && e.0 != id ==> e in left && e == (e.0, id);
  }

  lemma DropNodeKeeps(st: GraphState, id: NodeId)
    requires Joined(st) && WellWeighted(st)
    ensures Joined(Without(st, {id})) && WellWeighted(Without(st, {id}))
  {
  }

  lemma ForwardDropsNode(nodes: map<NodeId, GraphNode>, st: GraphState, links: EdgeMap, id: NodeId)
    requires Forward(nodes, st.nodes, SendersLeft(links, id, {}))
    ensures Forward(nodes - {id}, Without(st, {id}).nodes, LinksWithout(links, id))
  {
  }

  lemma ReverseDropsNode(index: map<NodeId, map<NodeId, EdgeRef>>, links: EdgeMap, id: NodeId)
    requires Reverse(index, TargetsLeft(links, id, {}))
    ensures Reverse(index - {id}, LinksWithout(links, id))
  {
  }

  lemma StoredDropsNode(store: map<EdgeRef, EdgeState>, links: EdgeMap, st: GraphState, id: NodeId)
    requires Stored(store, links, st.edges)
    ensures Stored(store, LinksWithout(links, id), Without(st, {id}).edges)
  {
  }

  class VisitedSet {
    var ids: set<NodeId>

    constructor ()
      ensures ids == {}
    {
      ids := {};
    }
  }

  class FraudGraph {
    var nodes: map<NodeId, GraphNode>
    var inEdges: map<NodeId, map<NodeId, EdgeRef>>
    var store: map<EdgeRef, EdgeState>
    var nextRef: nat
    var gen: nat
    var cache: map<NodeId, Entry>
    ghost var Links: EdgeMap
    ghost var Contents: GraphState

    ghost predicate Linked()
      reads this
    {
      && Forward(nodes, Contents.nodes, Links)
      && Reverse(inEdges, Links)
      && Stored(store, Links, Contents.edges)
      && (forall r :: r in store ==> r.address < nextRef)
      && Joined(Contents)
    }

    ghost predicate ValidGraph()
      reads this
    {
      Linked() && WellWeighted(Contents)
    }

    ghost function AsShared(): Shared
      reads this
    {
      Shared(RiskView(Contents), gen, cache)
    }

    ghost predicate Valid()
      reads this
    {
      ValidGraph() && Sound(AsShared())
    }

    /** The seeded graph of NewFraudGraph, for the hashed ids of the known recipients. An id in
        both lists ends up a mule: the second loop overwrites it. */
    constructor (fraudIds: seq<NodeId>, muleIds: seq<NodeId>, now: int)
      ensures Valid()
      ensures Contents == Seeded(Seeded(GraphState(map[], map[]), fraudIds, NodeState(true, false, FRAUD_RISK, now)),
                                 muleIds, NodeState(false, true, MULE_RISK, now))
    {
      hide Forward, Reverse, Stored, Joined, WellWeighted, RiskView, Sound, Seeded;
      nodes, inEdges, store, nextRef, gen, cache := map[], map[], map[], 0, 0, map[];
      Links, Contents := map[], GraphState(map[], map[]);
      EmptyGraph();
      new;
      Seed(fraudIds, NodeState(true, false, FRAUD_RISK, now));
      Seed(muleIds, NodeState(false, true, MULE_RISK, now));
      SeededIsUnlinked(GraphState(map[], map[]), fraudIds, NodeState(true, false, FRAUD_RISK, now));
      SeededIsUnlinked(Seeded(GraphState(map[], map[]), fraudIds, NodeState(true, false, FRAUD_RISK, now)),
                       muleIds, NodeState(false, true, MULE_RISK, now));
    }

    method Seed(ids: seq<NodeId>, seed: NodeState)
      requires Linked() && Links == map[]
      modifies this`nodes, this`Contents
      ensures Linked()
      ensures Contents == Seeded(old(Contents), ids, seed)
    {
      for i := 0 to |ids|
        invariant Linked()
        invariant Contents == Seeded(old(Contents), ids[..i], seed)
      {
        PutNode(ids[i], seed);
        SeededStep(old(Contents), ids, i, seed);
      }
      assert ids[..|ids|] == ids;
    }

    /** Stores a node without edges under an id that no edge leaves. */
    method PutNode(id: NodeId, state: NodeState)
      requires Linked()
      requires forall t :: (id, t) !in Links
      modifies this`nodes, this`Contents
      ensures Linked()
      ensures Contents == old(Contents).(nodes := old(Contents.nodes)[id := state])
    {
      hide Forward, Reverse, Stored, Joined;
      ForwardPuts(nodes, Contents.nodes, Links, id, state);
      JoinedPuts(Contents, id, state);
      nodes := nodes[id := GraphNode(state, map[])];
      Contents := Contents.(nodes := Contents.nodes[id := state]);
    }

    method GetOrCreateNode(id: NodeId, now: int)
      requires Linked()
      modifies this`nodes, this`Contents
      ensures Linked() && id in nodes && old(nodes.Keys) <= nodes.Keys
      ensures id in Contents.nodes && nodes[id].state == Contents.nodes[id]
      ensures Contents == WithNode(old(Contents), id, now)
    {
      if id !in nodes {
        PutNode(id, NodeState(false, false, 0.0, now));
      }
    }

    /** The edge from -> to, created in both maps when it is new. */
    method GetOrCreateEdge(from: NodeId, to: NodeId, now: int) returns (edge: EdgeRef)
      requires Linked() && from in nodes && to in nodes
      modifies this`nodes, this`inEdges, this`store, this`nextRef, this`Links, this`Contents
      ensures Linked()
      ensures (from, to) in Links && Links[(from, to)] == edge
      ensures Contents == WithEdge(old(Contents), from, to, now)
    {
      hide Forward, Reverse, Stored, Joined;
      ghost var e, state := (from, to), EdgeState(0, 0, now, 0, 0.0);
      EdgeFacts(from, to);
      JoinedExtends(e, state);
      if to in nodes[from].edges {
        edge := nodes[from].edges[to];
      } else {
        edge := EdgeRef(nextRef);
        ForwardExtends(nodes, Contents.nodes, Links, e, edge);
        ReverseExtends(inEdges, Links, e, edge);
        StoredExtends(store, Links, Contents.edges, e, edge, state);
        nodes := nodes[from := nodes[from].(edges := nodes[from].edges[to := edge])];
        inEdges := inEdges[to := Senders(inEdges, to)[from := edge]];
        store, nextRef := store[edge := EdgeState(0, 0, now, 0, 0.0)], nextRef + 1;
        Links := Links[e := edge];
        Contents := Contents.(edges := Contents.edges[e := state]);
      }
    }

    lemma EdgeFacts(s: NodeId, t: NodeId)
      requires Linked() && s in nodes
      ensures (s, t) in Links <==> (s, t) in Contents.edges
      ensures (s, t) in Links <==> t in nodes[s].edges
      ensures (s, t) in Links ==>
        && nodes[s].edges[t] == Links[(s, t)] && Links[(s, t)] in store
        && store[Links[(s, t)]] == Contents.edges[(s, t)]
      ensures EdgeRef(nextRef) !in store
    {
      assert OutAgrees(nodes[s].edges, s, Links);
    }

    lemma JoinedExtends(e: (NodeId, NodeId), state: EdgeState)
      requires Linked() && e.0 in nodes && e.1 in nodes
      ensures Joined(Contents.(edges := Contents.edges[e := state]))
    {
    }

    /** One more transfer recorded in the shared edge record. */
    method RecordTransfer(ghost e: (NodeId, NodeId), edge: EdgeRef, amount: int, now: int)
      requires Linked() && e in Links && Links[e] == edge
      modifies this`store, this`Contents
      ensures Linked()
      ensures Contents == old(Contents).(edges := old(Contents.edges)[e := Transfer(old(Contents.edges)[e], amount, now)])
    {
      hide Forward, Reverse, Stored, Joined, Transfer;
      KeysAgree();
      EdgeFacts(e.0, e.1);
      var after := Transfer(store[edge], amount, now);
      JoinedExtends(e, after);
      StoredUpdates(store, Links, Contents.edges, e, after);
      store := store[edge := after];
      Contents := Contents.(edges := Contents.edges[e := after]);
    }

    /** AddTransaction, for hashed endpoints and one clock reading. */
    method AddTransaction(from: NodeId, to: NodeId, amount: int, now: int)
      requires Valid()
      modifies this
      ensures Valid()
      ensures Contents == AfterTransaction(old(Contents), from, to, amount, now)
      ensures Mutates(old(AsShared()), AsShared())
    {
      hide Forward, Reverse, Stored, Joined, WellWeighted, WithNode, WithTransfer, PrunedIfFull, RiskView, Sound;
      TransactionKeepsWeights(Contents, from, to, amount, now);
      PruneIfFull(now);
      Pay(from, to, amount, now);
      MutationKeepsSound(old(AsShared()), AsShared());
    }

    method PruneIfFull(now: int)
      requires Valid()
      modifies this
      ensures Valid()
      ensures Contents == PrunedIfFull(old(Contents), now)
      ensures AsShared() == old(AsShared()) || Mutates(old(AsShared()), AsShared())
    {
      assert |nodes| == |nodes.Keys| == |Contents.nodes|;
      if |nodes| >= MAX_GRAPH_SIZE {
        PruneOldNodes(now);
      }
    }

    /** The rest of AddTransaction, once the graph is small enough. */
    method Pay(from: NodeId, to: NodeId, amount: int, now: int)
      requires Linked()
      modifies this`nodes, this`inEdges, this`store, this`nextRef, this`gen, this`Links, this`Contents
      ensures Linked() && gen == old(gen) + 1
      ensures Contents == WithTransfer(WithNode(WithNode(old(Contents), from, now), to, now), from, to, amount, now)
    {
      hide Forward, Reverse, Stored, Joined, Transfer;
      GetOrCreateNode(from, now);
      GetOrCreateNode(to, now);
      var edge := GetOrCreateEdge(from, to, now);
      RecordTransfer((from, to), edge, amount, now);
      gen := gen + 1;
    }

    method MarkAsFraud(id: NodeId, now: int)
      requires Valid()
      modifies this
      ensures Valid()
      ensures Contents == AfterMarking(old(Contents), id, true, now)
      ensures Mutates(old(AsShared()), AsShared())
    {
      hide Forward, Reverse, Stored, Joined, Sound;
      GetOrCreateNode(id, now);
      UpdateNode(id, nodes[id].state.(isFraud := true, riskScore := FRAUD_RISK));
      gen := gen + 1;
      MutationKeepsSound(old(AsShared()), AsShared());
    }

    method MarkAsMule(id: NodeId, now: int)
      requires Valid()
      modifies this
      ensures Valid()
      ensures Contents == AfterMarking(old(Contents), id, false, now)
      ensures Mutates(old(AsShared()), AsShared())
    {
      hide Forward, Reverse, Stored, Joined, Sound;
      GetOrCreateNode(id, now);
      UpdateNode(id, nodes[id].state.(isMule := true, riskScore := Max(nodes[id].state.riskScore, MULE_RISK)));
      gen := gen + 1;
      MutationKeepsSound(old(AsShared()), AsShared());
    }

    method UpdateNode(id: NodeId, state: NodeState)
      requires Linked() && id in nodes
      modifies this`nodes, this`Contents
      ensures Linked() && id in nodes && nodes[id].state == state
      ensures Contents == old(Contents).(nodes := old(Contents.nodes)[id := state])
    {
      hide Forward, Reverse, Stored, Joined;
      ForwardUpdates(nodes, Contents.nodes, Links, id, state);
      JoinedPuts(Contents, id, state);
      KeysAgree();
      nodes := nodes[id := nodes[id].(state := state)];
      Contents := Contents.(nodes := Contents.nodes[id := state]);
    }

    method PruneOldNodes(now: int)
      requires Valid()
      modifies this
      ensures Valid()
      ensures Contents == Pruned(old(Contents), now - RETENTION)
      ensures AsShared() == old(AsShared()) || Mutates(old(AsShared()), AsShared())
    {
      hide Forward, Reverse, Stored, Joined, WellWeighted, Without, StaleNodes, Sound, RiskView;
      var cutoff := now - RETENTION;
      KeysAgree();
      ghost var before, stale := Contents, StaleNodes(Contents, cutoff);
      var todo := nodes.Keys;
      var pruned := false;
      WithoutNothing(before);
      assert stale - todo == {};
      while todo != {}
        invariant ValidGraph() && Contents == Without(before, stale - todo)
        invariant todo <= nodes.Keys == Contents.nodes.Keys
        invariant gen == old(gen) && forall id :: id in cache ==> id in old(cache) && cache[id] == old(cache)[id]
        invariant !pruned ==> stale - todo == {} && cache == old(cache)
      {
        var id :| id in todo;
        WithoutKeeps(before, stale - todo, id);
        WithoutOneMore(before, stale - todo, id);
        var removed := PruneIfStale(id, cutoff);
        pruned := pruned || removed;
        assert stale - (todo - {id}) == if removed then (stale - todo) + {id} else stale - todo;
        todo := todo - {id};
      }
      assert stale - todo == stale;
      if pruned {
        gen := gen + 1;
        MutationKeepsSound(old(AsShared()), AsShared());
      }
    }

    method PruneIfStale(id: NodeId, cutoff: int) returns (stale: bool)
      requires ValidGraph() && id in nodes
      modifies this`nodes, this`inEdges, this`cache, this`Links, this`Contents
      ensures ValidGraph() && nodes.Keys == Contents.nodes.Keys
      ensures stale == Stale(old(Contents), id, cutoff)
      ensures nodes.Keys == old(nodes.Keys) - if stale then {id} else {}
      ensures Contents == if stale then Without(old(Contents), {id}) else old(Contents)
      ensures cache == if stale then old(cache) - {id} else old(cache)
    {
      var node := nodes[id].state;
      stale := !(node.isFraud || node.isMule || !(node.lastUpdate < cutoff));
      if stale {
        PruneNode(id);
      }
    }

    lemma KeysAgree()
      requires Linked()
      ensures nodes.Keys == Contents.nodes.Keys
      ensures forall e :: e in Links ==> e.0 in nodes && e.1 in nodes
    {
    }

    /** Removes one node with its edges from both indexes and its score from the cache. */
    method PruneNode(id: NodeId)
      requires ValidGraph() && id in nodes
      modifies this`nodes, this`inEdges, this`cache, this`Links, this`Contents
      ensures ValidGraph() && nodes.Keys == old(nodes.Keys) - {id}
      ensures Contents == Without(old(Contents), {id})
      ensures cache == old(cache) - {id}
    {
      hide Forward, Reverse, Stored, Joined, WellWeighted, LinksWithout, TargetsLeft, SendersLeft, Without;
      KeysAgree();
      DropNodeKeeps(Contents, id);
      UnlinkTargets(id);
      UnlinkSenders(id);
      ForwardDropsNode(nodes, Contents, Links, id);
      ReverseDropsNode(inEdges, Links, id);
      StoredDropsNode(store, Links, Contents, id);
      inEdges := inEdges - {id};
      cache := cache - {id};
      nodes := nodes - {id};
      Links := LinksWithout(Links, id);
      Contents := Without(Contents, {id});
    }

    /** Takes the edges that leave `id` out of every target's row of the reverse index. */
    method UnlinkTargets(id: NodeId)
      requires Forward(nodes, Contents.nodes, Links) && Reverse(inEdges, Links) && id in nodes
      modifies this`inEdges
      ensures Reverse(inEdges, TargetsLeft(Links, id, {}))
    {
      hide Forward, Reverse, TargetsLeft;
      var targets := nodes[id].edges.Keys;
      AllTargetsLeft(nodes, Contents.nodes, id, Links);
      while targets != {}
        invariant Reverse(inEdges, TargetsLeft(Links, id, targets))
      {
        var toID :| toID in targets;
        ReverseRemoves(inEdges, TargetsLeft(Links, id, targets), (id, toID));
        OneTargetLess(Links, id, targets, toID);
        inEdges := Unlinked(inEdges, (id, toID));
        targets := targets - {toID};
      }
    }

    /** Takes the edges into `id` out of their senders' forward maps. */
    method UnlinkSenders(id: NodeId)
      requires Forward(nodes, Contents.nodes, Links) && Reverse(inEdges, TargetsLeft(Links, id, {}))
      requires forall e :: e in Links ==> e.0 in nodes
      modifies this`nodes
      ensures Forward(nodes, Contents.nodes, SendersLeft(Links, id, {})) && nodes.Keys == old(nodes.Keys)
    {
      hide Forward, Reverse, SendersLeft, TargetsLeft;
      var senders := Senders(inEdges, id).Keys;
      AllSendersLeft(inEdges, id, Links);
      while senders != {}
        invariant Forward(nodes, Contents.nodes, SendersLeft(Links, id, senders))
        invariant senders <= nodes.Keys - {id} && nodes.Keys == old(nodes.Keys)
      {
        var senderID :| senderID in senders;
        ForwardRemoves(nodes, Contents.nodes, SendersLeft(Links, id, senders), (senderID, id));
        OneSenderLess(Links, id, senders, senderID);
        nodes := nodes[senderID := nodes[senderID].(edges := nodes[senderID].edges - {id})];
        senders := senders - {senderID};
      }
    }

    // -------------------------------------------------------------- reading scores

    /** What the search reads off the maps is the value graph. */
    lemma Reads(id: NodeId)
      requires Linked()
      ensures var g := RiskView(Contents);
        && (id in nodes <==> id in g.nodes)
        && (id in nodes ==> g.nodes[id] == Node(nodes[id].state.isFraud, nodes[id].state.isMule))
    {
    }

    lemma ReadsForward(id: NodeId, n: NodeId)
      requires Linked() && id in nodes
      ensures var g := RiskView(Contents);
        && (n in nodes[id].edges <==> (id, n) in g.weight)
        && (n in nodes[id].edges ==> nodes[id].edges[n] in store && store[nodes[id].edges[n]].weight == g.weight[(id, n)])
    {
      assert n in nodes[id].edges <==> (id, n) in Links;
    }

    lemma ReadsReverse(id: NodeId, s: NodeId)
      requires Linked()
      ensures var g, row := RiskView(Contents), Senders(inEdges, id);
        && (s in row <==> (s, id) in g.weight)
        && (s in row ==> row[s] in store && store[row[s]].weight == g.weight[(s, id)])
    {
      assert s in Senders(inEdges, id) <==> (s, id) in Links;
    }

    method ComputeNHopRisk(id: NodeId, hops: int, visited: VisitedSet) returns (maxRisk: real)
      requires Linked()
      modifies visited
      ensures visited.ids == old(visited.ids)
      ensures maxRisk == SearchRisk(RiskView(Contents), id, hops, old(visited.ids))
      decreases hops
    {
      hide Forward, Reverse, Stored, Joined, RiskView, Best, SearchOffers, SenderOffers;
      Reads(id);
      if hops <= 0 || id in visited.ids {
        return 0.0;
      }
      if id !in nodes {
        return 0.0;
      }
      visited.ids := visited.ids + {id};
      maxRisk := OutboundRisk(id, hops, visited);
      var inbound := InboundRisk(id);
      maxRisk := Max(maxRisk, inbound);
      visited.ids := visited.ids - {id};
    }

    /** The loop over the direct neighbours. */
    method OutboundRisk(id: NodeId, hops: int, visited: VisitedSet) returns (maxRisk: real)
      requires Linked() && id in nodes && hops > 0
      modifies visited
      ensures visited.ids == old(visited.ids)
      ensures maxRisk == Best(SearchOffers(RiskView(Contents), id, hops, old(visited.ids)))
      decreases hops, 0
    {
      hide Forward, Reverse, Stored, Joined, RiskView, Best, IsBest, SearchOffers, SearchRisk;
      ghost var offers := SearchOffers(RiskView(Contents), id, hops, visited.ids);
      maxRisk := 0.0;
      var todo := nodes[id].edges.Keys;
      forall n ensures n in offers ==> n in todo {
        ReadsForward(id, n);
        SearchOfferAt(RiskView(Contents), id, hops, visited.ids, n);
      }
      BestOfNone(offers, todo);
      while todo != {}
        invariant todo <= nodes[id].edges.Keys
        invariant visited.ids == old(visited.ids)
        invariant IsBest(offers - todo, maxRisk)
      {
        var n :| n in todo;
        ReadsForward(id, n);
        Reads(n);
        SearchOfferAt(RiskView(Contents), id, hops, visited.ids, n);
        BestStep(offers, todo, n, maxRisk);
        if n in nodes {
          var neighborRisk: real;
          if nodes[n].state.isFraud {
            neighborRisk := FRAUD_RISK;
          } else if nodes[n].state.isMule {
            neighborRisk := MULE_RISK;
          } else {
            neighborRisk := ComputeNHopRisk(n, hops - 1, visited);
          }
          if neighborRisk > 0.0 {
            maxRisk := Max(maxRisk, Propagated(neighborRisk, store[nodes[id].edges[n]].weight));
          }
        }
        todo := todo - {n};
      }
      BestOfAll(offers, maxRisk);
    }

    /** The loop over the flagged senders, from the reverse index. */
    method InboundRisk(id: NodeId) returns (maxRisk: real)
      requires Linked()
      ensures maxRisk == Best(SenderOffers(RiskView(Contents), id))
    {
      ghost var offers := SenderOffers(RiskView(Contents), id);
      maxRisk := 0.0;
      var row := Senders(inEdges, id);
      var todo := row.Keys;
      forall s ensures s in offers ==> s in todo {
        ReadsReverse(id, s);
      }
      BestOfNone(offers, todo);
      while todo != {}
        invariant todo <= row.Keys
        invariant IsBest(offers - todo, maxRisk)
      {
        var s :| s in todo;
        ReadsReverse(id, s);
        Reads(s);
        BestStep(offers, todo, s, maxRisk);
        if s in nodes && (nodes[s].state.isFraud || nodes[s].state.isMule) {
          var baseRisk := if nodes[s].state.isFraud then FRAUD_RISK else MULE_RISK;
          maxRisk := Max(maxRisk, Propagated(baseRisk, store[row[s]].weight));
        }
        todo := todo - {s};
      }
      BestOfAll(offers, maxRisk);
    }

    /** The read-locked section of GetRiskScore. */
    method LookUp(id: NodeId, prior: real) returns (r: Option<real>)
      requires Valid()
      ensures r == FastSection(AsShared(), id, prior)
      ensures r.Some? ==> r.value == Uncached(AsShared(), id, prior)
    {
      Reads(id);
      if id !in nodes {
        return Some(prior);
      }
      if id in cache && cache[id].gen == gen {
        return Some(cache[id].risk);
      }
      return None;
    }

    /** The write-locked section of GetRiskScore. */
    method ComputeAndStore(id: NodeId, prior: real) returns (risk: real)
      requires Valid()
      modifies this`cache
      ensures Valid()
      ensures (risk, AsShared()) == SlowSection(old(AsShared()), id, prior)
      ensures risk == Uncached(old(AsShared()), id, prior)
    {
      hide Forward, Reverse, Stored, Joined, RiskView, SearchRisk, WellWeighted;
      Reads(id);
      if id !in nodes {
        return prior;
      }
      if id in cache && cache[id].gen == gen {
        return cache[id].risk;
      }
      if nodes[id].state.isFraud {
        risk := FRAUD_RISK;
      } else if nodes[id].state.isMule {
        risk := MULE_RISK;
      } else {
        var visited := new VisitedSet();
        risk := ComputeNHopRisk(id, MAX_HOPS, visited);
      }
      cache := cache[id := Entry(risk, gen)];
    }

    /** GetRiskScore, when no other call runs between its two sections. */
    method GetRiskScore(id: NodeId, prior: real) returns (risk: real)
      requires Valid()
      modifies this`cache
      ensures Valid()
      ensures risk == Uncached(old(AsShared()), id, prior)
      ensures Answers(old(Contents), id, prior, risk)
    {
      hide Uncached, Answers, Linked, Sound, SlowSection, FastSection;
      UncachedAnswers(AsShared(), Contents, id, prior);
      var cached := LookUp(id, prior);
      match cached
      case Some(value) => risk := value;
      case None => risk := ComputeAndStore(id, prior);
    }
  }
}
