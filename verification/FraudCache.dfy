/** The generation-stamped score cache of fraud/gnn.go, as a state shared by concurrent calls.
    A call to GetRiskScore is two critical sections; anything may happen between them. */
module FraudCache {
  import opened FraudRisk
  import opened Wrappers

  datatype Entry = Entry(risk: real, gen: nat)

  datatype Shared = Shared(graph: Graph, gen: nat, cache: map<NodeId, Entry>)

  /** A stamp is never from the future, and an entry stamped with the current generation
      belongs to a present node and holds its recomputed score. */
  ghost predicate Sound(s: Shared) {
    && (forall id :: id in s.cache ==> s.cache[id].gen <= s.gen)
    && (forall id :: id in s.cache && s.cache[id].gen == s.gen ==>
          id in s.graph.nodes && s.cache[id].risk == Score(s.graph, id, MAX_HOPS))
  }

  predicate Hit(s: Shared, id: NodeId) {
    id in s.cache && s.cache[id].gen == s.gen
  }

  /** The read-locked section: an unknown recipient gets the pattern prior, a current entry is
      returned, and otherwise the call goes on to the second section. */
  function FastSection(s: Shared, id: NodeId, prior: real): Option<real> {
    if id !in s.graph.nodes then Some(prior)
    else if Hit(s, id) then Some(s.cache[id].risk)
    else None
  }

  /** The write-locked section re-checks both conditions, then computes and stores. */
  ghost function SlowSection(s: Shared, id: NodeId, prior: real): (real, Shared) {
    if id !in s.graph.nodes then (prior, s)
    else if Hit(s, id) then (s.cache[id].risk, s)
    else
      var risk := Score(s.graph, id, MAX_HOPS);
      (risk, s.(cache := s.cache[id := Entry(risk, s.gen)]))
  }

  /** A score that was computed is found by the next call, as long as nothing mutates the graph. */
  lemma StoredIsFound(s: Shared, id: NodeId, prior: real)
    requires id in s.graph.nodes
    ensures var (risk, s') := SlowSection(s, id, prior);
      FastSection(s', id, prior) == Some(risk) && s'.graph == s.graph && s'.gen == s.gen
  {
  }

  /** A mutation of the graph bumps the generation and may drop cache entries. */
  ghost predicate Mutates(s: Shared, s': Shared) {
    && s'.gen > s.gen
    && forall id :: id in s'.cache ==> id in s.cache && s'.cache[id] == s.cache[id]
  }

  /** One critical section of any call: nothing, a mutation, or a score computed and stored. */
  ghost predicate Next(s: Shared, s': Shared) {
    || s' == s
    || Mutates(s, s')
    || exists id, prior :: s' == SlowSection(s, id, prior).1
  }

  lemma MutationKeepsSound(s: Shared, s': Shared)
    requires Sound(s) && Mutates(s, s')
    ensures Sound(s')
  {
  }

  lemma NextKeepsSound(s: Shared, s': Shared)
    requires Sound(s) && Next(s, s')
    ensures Sound(s')
  {
  }

  ghost predicate Run(t: seq<Shared>) {
    && |t| > 0
    && Sound(t[0])
    && forall i :: 0 <= i < |t| - 1 ==> Next(t[i], t[i + 1])
  }

  lemma {:induction false} RunIsSound(t: seq<Shared>, k: nat)
    requires Run(t) && k < |t|
    ensures Sound(t[k])
  {
    if k > 0 {
      RunIsSound(t, k - 1);
      NextKeepsSound(t[k - 1], t[k]);
    }
  }

  /** What a call that starts in t[i] returns when its second section, if it needs one,
      runs in t[j]. */
  ghost function CallResult(t: seq<Shared>, i: nat, j: nat, id: NodeId, prior: real): real
    requires i <= j < |t|
  {
    match FastSection(t[i], id, prior)
    case Some(risk) => risk
    case None => SlowSection(t[j], id, prior).0
  }

  /** The answer that a state gives when nothing is cached. */
  ghost function Uncached(s: Shared, id: NodeId, prior: real): real {
    if id in s.graph.nodes then Score(s.graph, id, MAX_HOPS) else prior
  }

  /** In every interleaving, a call returns the uncached answer of one single state between its
      start and its end: no stale score survives a transaction, a marking or a prune. */
  lemma CallsAreLinearizable(t: seq<Shared>, i: nat, j: nat, id: NodeId, prior: real) returns (k: nat)
    requires Run(t) && i <= j < |t|
    ensures i <= k <= j
    ensures CallResult(t, i, j, id, prior) == Uncached(t[k], id, prior)
  {
    RunIsSound(t, i);
    RunIsSound(t, j);
    k := if FastSection(t[i], id, prior).Some? then i else j;
  }
}
