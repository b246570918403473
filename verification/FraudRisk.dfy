/** Risk propagation over the payment graph of fraud/gnn.go, as values: the depth-limited
    search with a visited set, and the plain recurrence over walks that it computes. */
module FraudRisk {

  /** The truncated digest of a recipient. */
  datatype NodeId = NodeId(digest: nat)

  const MAX_HOPS := 3
  const DECAY := 0.6
  const FRAUD_RISK := 1.0
  const MULE_RISK := 0.8

  datatype Node = Node(isFraud: bool, isMule: bool)

  /** `weight` has the key (s, t) exactly when s has an outbound edge to t. */
  datatype Graph = Graph(nodes: map<NodeId, Node>, weight: map<(NodeId, NodeId), real>)

  /** The range that structuringWeight gives every edge. */
  ghost predicate GoodWeights(g: Graph) {
    forall e :: e in g.weight ==> 0.1 <= g.weight[e] <= 1.0
  }

  predicate Flagged(g: Graph, id: NodeId) {
    id in g.nodes && (g.nodes[id].isFraud || g.nodes[id].isMule)
  }

  /** The risk a flagged node hands to its neighbours: fraud wins over mule. */
  function BaseRisk(g: Graph, id: NodeId): real
    requires id in g.nodes
  {
    if g.nodes[id].isFraud then FRAUD_RISK else MULE_RISK
  }

  function Propagated(risk: real, weight: real): real {
    risk * DECAY * weight
  }

  ghost predicate HasEdge(g: Graph, s: NodeId, t: NodeId) {
    (s, t) in g.weight && s in g.nodes && t in g.nodes
  }

  ghost function Successors(g: Graph, id: NodeId): set<NodeId> {
    set n | n in g.nodes && (id, n) in g.weight
  }

  ghost function FlaggedSenders(g: Graph, id: NodeId): set<NodeId> {
    set s | s in g.nodes && (s, id) in g.weight && Flagged(g, s)
  }

  /** `m` is the largest offer in the table, or 0 when none is above 0. */
  ghost predicate IsBest(offers: map<NodeId, real>, m: real) {
    && m >= 0.0
    && (forall n :: n in offers ==> offers[n] <= m)
    && (m == 0.0 || exists n :: n in offers && offers[n] == m)
  }

  lemma {:induction false} BestExists(offers: map<NodeId, real>) returns (m: real)
    ensures IsBest(offers, m)
    decreases |offers|
  {
    m := 0.0;
    if n :| n in offers {
      m := BestExists(offers - {n});
      assert forall k :: k in offers ==> k == n || k in offers - {n};
      if offers[n] > m {
        m := offers[n];
      }
    }
  }

  ghost function Best(offers: map<NodeId, real>): (m: real)
    ensures IsBest(offers, m)
  {
    assert exists m :: IsBest(offers, m) by {
      var m := BestExists(offers);
    }
    var m :| IsBest(offers, m);
    m
  }

  /** Taking one more row of the table into account. */
  lemma BestStep(offers: map<NodeId, real>, todo: set<NodeId>, n: NodeId, m: real)
    requires IsBest(offers - todo, m) && n in todo
    ensures m >= 0.0
    ensures n in offers ==> IsBest(offers - (todo - {n}), Max(m, offers[n]))
    ensures n !in offers ==> IsBest(offers - (todo - {n}), m)
  {
    var rows := offers - (todo - {n});
    assert forall k :: k in rows ==> k == n || k in offers - todo;
    if n in offers {
      assert n in rows;
      assert m != 0.0 ==> exists k :: k in offers - todo && k in rows && offers[k] == m;
    } else {
      assert rows == offers - todo;
    }
  }

  lemma BestOfNone(offers: map<NodeId, real>, todo: set<NodeId>)
    requires offers.Keys <= todo
    ensures IsBest(offers - todo, 0.0)
  {
  }

  lemma BestOfAll(offers: map<NodeId, real>, m: real)
    requires IsBest(offers - {}, m)
    ensures Best(offers) == m
  {
    assert offers - {} == offers;
  }

  function Max(x: real, y: real): real {
    if x >= y then x else y
  }

  /** What the flagged senders into `id` pass on to it. */
  ghost function SenderOffers(g: Graph, id: NodeId): map<NodeId, real> {
    map s | s in FlaggedSenders(g, id) :: Propagated(BaseRisk(g, s), g.weight[(s, id)])
  }

  /** The search: a node on the current path contributes nothing. */
  ghost function SearchRisk(g: Graph, id: NodeId, hops: int, visited: set<NodeId>): (r: real)
    ensures r >= 0.0
    decreases hops
  {
    if hops <= 0 || id in visited || id !in g.nodes then 0.0
    else Max(Best(SearchOffers(g, id, hops, visited + {id})), Best(SenderOffers(g, id)))
  }

  ghost function SearchOffers(g: Graph, id: NodeId, hops: int, visited: set<NodeId>): map<NodeId, real>
    requires hops > 0
    decreases hops, 0
  {
    map n | n in Successors(g, id) ::
      Propagated(if Flagged(g, n) then BaseRisk(g, n) else SearchRisk(g, n, hops - 1, visited), g.weight[(id, n)])
  }

  /** The plain recurrence over walks: no visited set at all. */
  ghost function WalkRisk(g: Graph, id: NodeId, hops: int): (r: real)
    ensures r >= 0.0
    decreases hops
  {
    if hops <= 0 || id !in g.nodes then 0.0
    else Max(Best(WalkOffers(g, id, hops)), Best(SenderOffers(g, id)))
  }

  ghost function WalkOffers(g: Graph, id: NodeId, hops: int): map<NodeId, real>
    requires hops > 0
    decreases hops, 0
  {
    map n | n in Successors(g, id) ::
      Propagated(if Flagged(g, n) then BaseRisk(g, n) else WalkRisk(g, n, hops - 1), g.weight[(id, n)])
  }

  /** The score of a known node, as the uncached branch of GetRiskScore computes it for a
      hop budget; the service runs it with MAX_HOPS. */
  ghost function Score(g: Graph, id: NodeId, hops: nat): real
    requires id in g.nodes
  {
    if Flagged(g, id) then BaseRisk(g, id) else SearchRisk(g, id, hops, {})
  }

  // ---------------------------------------------------------------- arithmetic of one hop

  lemma PropagatedMonotone(x: real, y: real, w: real)
    requires x <= y && 0.0 <= w
    ensures Propagated(x, w) <= Propagated(y, w)
  {
  }

  lemma PropagatedShrinks(x: real, w: real)
    requires 0.0 <= x && 0.0 <= w <= 1.0
    ensures 0.0 <= Propagated(x, w) <= DECAY * x
  {
    assert Propagated(x, w) == (x * DECAY) * w;
  }

  // ---------------------------------------------------------------- one step of each recurrence

  lemma WalkOffer(g: Graph, id: NodeId, hops: int, n: NodeId)
    requires hops > 0 && id in g.nodes && n in Successors(g, id)
    ensures Propagated(if Flagged(g, n) then BaseRisk(g, n) else WalkRisk(g, n, hops - 1), g.weight[(id, n)])
         <= WalkRisk(g, id, hops)
  {
    assert n in WalkOffers(g, id, hops);
  }

  lemma SearchOffer(g: Graph, id: NodeId, hops: int, visited: set<NodeId>, n: NodeId)
    requires hops > 0 && id in g.nodes && id !in visited && n in Successors(g, id)
    ensures Propagated(if Flagged(g, n) then BaseRisk(g, n) else SearchRisk(g, n, hops - 1, visited + {id}), g.weight[(id, n)])
         <= SearchRisk(g, id, hops, visited)
  {
    assert n in SearchOffers(g, id, hops, visited + {id});
  }

  lemma SenderOffer(g: Graph, id: NodeId, hops: int, visited: set<NodeId>, s: NodeId)
    requires hops > 0 && id in g.nodes && s in FlaggedSenders(g, id)
    ensures Propagated(BaseRisk(g, s), g.weight[(s, id)]) <= WalkRisk(g, id, hops)
    ensures id !in visited ==> Propagated(BaseRisk(g, s), g.weight[(s, id)]) <= SearchRisk(g, id, hops, visited)
  {
    assert s in SenderOffers(g, id);
  }

  lemma SearchOfferAt(g: Graph, id: NodeId, hops: int, visited: set<NodeId>, n: NodeId)
    requires hops > 0
    ensures var offers := SearchOffers(g, id, hops, visited);
      && (n in offers <==> n in g.nodes && (id, n) in g.weight)
      && (n in offers ==>
            offers[n] == Propagated(if Flagged(g, n) then BaseRisk(g, n) else SearchRisk(g, n, hops - 1, visited), g.weight[(id, n)]))
  {
  }

  /** Where a positive offer comes from. */
  datatype Origin = FromSender(s: NodeId) | FromFlagged(n: NodeId) | FromWalk(n: NodeId)

  lemma WalkOrigin(g: Graph, id: NodeId, hops: int) returns (o: Origin)
    requires WalkRisk(g, id, hops) > 0.0
    ensures hops > 0 && id in g.nodes
    ensures match o
      case FromSender(s) =>
        && s in FlaggedSenders(g, id)
        && WalkRisk(g, id, hops) == Propagated(BaseRisk(g, s), g.weight[(s, id)])
      case FromFlagged(n) =>
        && n in Successors(g, id) && Flagged(g, n)
        && WalkRisk(g, id, hops) == Propagated(BaseRisk(g, n), g.weight[(id, n)])
      case FromWalk(n) =>
        && n in Successors(g, id) && !Flagged(g, n)
        && WalkRisk(g, id, hops) == Propagated(WalkRisk(g, n, hops - 1), g.weight[(id, n)])
  {
    var r := WalkRisk(g, id, hops);
    if s :| s in SenderOffers(g, id) && SenderOffers(g, id)[s] == r {
      o := FromSender(s);
    } else {
      var n :| n in WalkOffers(g, id, hops) && WalkOffers(g, id, hops)[n] == r;
      o := if Flagged(g, n) then FromFlagged(n) else FromWalk(n);
    }
  }

  // ---------------------------------------------------------------- the search is the walk recurrence

  /** A larger hop budget never lowers the walk value. */
  lemma {:induction false} WalkMonotoneInHops(g: Graph, id: NodeId, hops: int)
    requires GoodWeights(g)
    ensures WalkRisk(g, id, hops) <= WalkRisk(g, id, hops + 1)
    decreases hops
  {
    if WalkRisk(g, id, hops) > 0.0 {
      var o := WalkOrigin(g, id, hops);
      match o
      case FromSender(s) => SenderOffer(g, id, hops + 1, {}, s);
      case FromFlagged(n) => WalkOffer(g, id, hops + 1, n);
      case FromWalk(n) =>
        WalkOffer(g, id, hops + 1, n);
        WalkMonotoneInHops(g, n, hops - 1);
        PropagatedMonotone(WalkRisk(g, n, hops - 1), WalkRisk(g, n, hops), g.weight[(id, n)]);
    }
  }

  /** The search never exceeds the walk value: hiding the visited nodes only removes offers. */
  lemma {:induction false} SearchBelowWalk(g: Graph, id: NodeId, hops: int, visited: set<NodeId>)
    requires GoodWeights(g)
    ensures SearchRisk(g, id, hops, visited) <= WalkRisk(g, id, hops)
    decreases hops
  {
    if SearchRisk(g, id, hops, visited) > 0.0 {
      var offers := SearchOffers(g, id, hops, visited + {id});
      forall n | n in offers
        ensures offers[n] <= WalkRisk(g, id, hops)
      {
        WalkOffer(g, id, hops, n);
        if !Flagged(g, n) {
          SearchBelowWalk(g, n, hops - 1, visited + {id});
          PropagatedMonotone(SearchRisk(g, n, hops - 1, visited + {id}), WalkRisk(g, n, hops - 1), g.weight[(id, n)]);
        }
      }
    }
  }

  /** Loop removal. Either the search that hides `visited` already reaches the walk value,
      or the best walk runs into some hidden node v, and starting at v with one hop less is
      strictly better. `v` is returned as the witness. */
  lemma {:induction false} WalkOrShortcut(g: Graph, id: NodeId, hops: int, visited: set<NodeId>)
    returns (hidden: bool, v: NodeId)
    requires GoodWeights(g)
    requires id !in visited
    ensures !hidden ==> WalkRisk(g, id, hops) <= SearchRisk(g, id, hops, visited)
    ensures hidden ==> v in visited && WalkRisk(g, id, hops) <= DECAY * WalkRisk(g, v, hops - 1)
    decreases hops
  {
    hide WalkRisk, SearchRisk, Propagated, SenderOffers, WalkOffers, SearchOffers;
    hidden, v := false, id;
    if WalkRisk(g, id, hops) > 0.0 {
      var o := WalkOrigin(g, id, hops);
      match o
      case FromSender(s) => SenderOffer(g, id, hops, visited, s);
      case FromFlagged(n) => SearchOffer(g, id, hops, visited, n);
      case FromWalk(n) =>
        NoReturn(g, id, hops, n);
        if n in visited {
          hidden, v := true, n;
        } else {
          var deeper, u := WalkOrShortcut(g, n, hops - 1, visited + {id});
          if deeper {
            NoLongReturn(g, id, hops, n, u);
            hidden, v := true, u;
          } else {
            SearchOffer(g, id, hops, visited, n);
            PropagatedMonotone(WalkRisk(g, n, hops - 1), SearchRisk(g, n, hops - 1, visited + {id}), g.weight[(id, n)]);
          }
        }
    }
  }

  /** A best walk loses at least DECAY per hop, so it does not go straight back to its start. */
  lemma NoReturn(g: Graph, id: NodeId, hops: int, n: NodeId)
    requires GoodWeights(g) && n in Successors(g, id)
    requires 0.0 < WalkRisk(g, id, hops) == Propagated(WalkRisk(g, n, hops - 1), g.weight[(id, n)])
    ensures WalkRisk(g, id, hops) <= DECAY * WalkRisk(g, n, hops - 1)
    ensures n != id
  {
    PropagatedShrinks(WalkRisk(g, n, hops - 1), g.weight[(id, n)]);
    WalkMonotoneInHops(g, id, hops - 1);
  }

  /** Nor does it come back later: two hops cost DECAY twice. */
  lemma NoLongReturn(g: Graph, id: NodeId, hops: int, n: NodeId, u: NodeId)
    requires GoodWeights(g)
    requires 0.0 < WalkRisk(g, id, hops) <= DECAY * WalkRisk(g, n, hops - 1)
    requires WalkRisk(g, n, hops - 1) <= DECAY * WalkRisk(g, u, hops - 2)
    ensures u != id
    ensures WalkRisk(g, id, hops) <= DECAY * WalkRisk(g, u, hops - 1)
  {
    WalkMonotoneInHops(g, u, hops - 2);
    WalkMonotoneInHops(g, u, hops - 1);
  }

  /** The visited set changes no top-level result: the search equals the plain recurrence
      over walks, for every graph, start node and hop budget. */
  lemma SearchIsWalk(g: Graph, id: NodeId, hops: int)
    requires GoodWeights(g)
    ensures SearchRisk(g, id, hops, {}) == WalkRisk(g, id, hops)
  {
    SearchBelowWalk(g, id, hops, {});
    var hidden, v := WalkOrShortcut(g, id, hops, {});
  }
}
