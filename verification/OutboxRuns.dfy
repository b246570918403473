/** Delivery over whole runs of the outbox worker, for any publish outcomes and any arrivals:
    how often an event is tried, when it may be forgotten, and when it is settled. */
module OutboxRuns {
  import opened Outbox
  import opened Wrappers

  /** One tick: the ids whose publish succeeds, the events enqueued meanwhile, the purge cutoff. */
  datatype Round = Round(ok: set<Id>, arrivals: seq<Event>, cutoff: int)

  /** `known` are all ids ever enqueued, `history` all publish attempts with their outcome. */
  datatype State = State(events: seq<Event>, known: set<Id>, history: multiset<(Id, bool)>)

  function Attempts(events: seq<Event>, limit: nat, ok: set<Id>): seq<(Id, bool)> {
    if events == [] then []
    else if !events[0].processed && limit > 0 then
      [(events[0].id, events[0].id in ok)] + Attempts(events[1..], limit - 1, ok)
    else Attempts(events[1..], limit, ok)
  }

  /** They are what the worker does with its batch. */
  lemma {:induction false} AttemptsAreTheBatch(events: seq<Event>, limit: nat, ok: set<Id>)
    ensures var batch := FirstPending(events, limit);
      && |Attempts(events, limit, ok)| == |batch|
      && forall i :: 0 <= i < |batch| ==> Attempts(events, limit, ok)[i] == (batch[i].id, batch[i].id in ok)
  {
    if events != [] {
      AttemptsAreTheBatch(events[1..], if events[0].processed || limit == 0 then limit else limit - 1, ok);
    }
  }

  ghost predicate Fresh(arrivals: seq<Event>, known: set<Id>) {
    && UniqueIds(arrivals)
    && forall e :: e in arrivals ==> e.id !in known && e.retries == 0 && !e.processed
  }

  function After(s: State, r: Round): State {
    State(Ticked(s.events, r.ok, r.arrivals, r.cutoff),
          s.known + Ids(r.arrivals),
          s.history + multiset(Attempts(s.events, BATCH, r.ok)))
  }

  function Start(arrivals: seq<Event>): State {
    State(arrivals, Ids(arrivals), multiset{})
  }

  /** Event ids are never drawn twice. */
  ghost predicate Legal(s: State, rounds: seq<Round>)
    decreases |rounds|
  {
    rounds == [] || (Fresh(rounds[0].arrivals, s.known) && Legal(After(s, rounds[0]), rounds[1..]))
  }

  function Run(s: State, rounds: seq<Round>): State
    decreases |rounds|
  {
    if rounds == [] then s else Run(After(s, rounds[0]), rounds[1..])
  }

  // ---------------------------------------------------------------- following one event

  function Find(events: seq<Event>, x: Id): Option<Event> {
    if events == [] then None
    else if events[0].id == x then Some(events[0])
    else Find(events[1..], x)
  }

  /** The ids in the batch. */
  function Front(events: seq<Event>, limit: nat): set<Id> {
    if events == [] then {}
    else if !events[0].processed && limit > 0 then {events[0].id} + Front(events[1..], limit - 1)
    else Front(events[1..], limit)
  }

  lemma {:induction false} FindIsMember(events: seq<Event>, x: Id)
    ensures Find(events, x).Some? ==> Find(events, x).value in events && Find(events, x).value.id == x
    ensures Find(events, x).None? ==> forall e :: e in events ==> e.id != x
  {
    if events != [] {
      FindIsMember(events[1..], x);
      assert events == [events[0]] + events[1..];
    }
  }

  lemma {:induction false} FrontIsPending(events: seq<Event>, limit: nat, x: Id)
    ensures x in Front(events, limit) ==> exists e :: e in events && e.id == x && !e.processed
    decreases events
  {
    if events != [] {
      FrontIsPending(events[1..], if events[0].processed || limit == 0 then limit else limit - 1, x);
      assert events == [events[0]] + events[1..];
    }
  }

  lemma UniqueTail(events: seq<Event>)
    requires UniqueIds(events) && events != []
    ensures UniqueIds(events[1..])
    ensures forall e :: e in events[1..] ==> e.id != events[0].id
    ensures Find(events[1..], events[0].id) == None
    ensures forall limit :: events[0].id !in Front(events[1..], limit)
  {
    FindIsMember(events[1..], events[0].id);
    forall limit: nat
      ensures events[0].id !in Front(events[1..], limit)
    {
      FrontIsPending(events[1..], limit, events[0].id);
    }
  }

  /** What a tick does to one event, and what it adds to the history. */
  lemma {:induction false} FindAttempted(events: seq<Event>, limit: nat, ok: set<Id>, x: Id)
    requires UniqueIds(events)
    ensures var tried := x in Front(events, limit);
      && (tried ==> Find(events, x).Some? && !Find(events, x).value.processed)
      && Find(Attempted(events, limit, ok), x) ==
           (if tried then Some(Tried(Find(events, x).value, ok)) else Find(events, x))
      && forall b :: multiset(Attempts(events, limit, ok))[(x, b)] == if tried && b == (x in ok) then 1 else 0
    decreases events
  {
    hide UniqueIds, Tried;
    if events != [] {
      UniqueTail(events);
      var limit' := if events[0].processed || limit == 0 then limit else limit - 1;
      FindAttempted(events[1..], limit', ok, x);
      CountOne((events[0].id, events[0].id in ok), Attempts(events[1..], limit', ok));
      TriedKeepsId(events[0], ok);
    }
  }

  lemma CountOne(first: (Id, bool), rest: seq<(Id, bool)>)
    ensures multiset([first] + rest) == multiset{first} + multiset(rest)
  {
  }

  lemma TriedKeepsId(e: Event, ok: set<Id>)
    ensures Tried(e, ok).id == e.id
  {
  }

  lemma {:induction false} FindPurged(events: seq<Event>, cutoff: int, x: Id)
    requires UniqueIds(events)
    ensures Find(Purged(events, cutoff), x) ==
      match Find(events, x)
      case None => None
      case Some(e) => if e.processed && e.createdAt < cutoff then None else Some(e)
  {
    if events != [] {
      UniqueTail(events);
      FindPurged(events[1..], cutoff, x);
    }
  }

  lemma {:induction false} FindAppended(events: seq<Event>, more: seq<Event>, x: Id)
    ensures Find(events + more, x) == if Find(events, x).Some? then Find(events, x) else Find(more, x)
  {
    if events == [] {
      assert events + more == more;
    } else {
      assert (events + more)[1..] == events[1..] + more;
      FindAppended(events[1..], more, x);
    }
  }

  lemma {:induction false} AttemptedUnique(events: seq<Event>, limit: nat, ok: set<Id>)
    ensures |Attempted(events, limit, ok)| == |events|
    ensures forall i :: 0 <= i < |events| ==> Attempted(events, limit, ok)[i].id == events[i].id
    ensures UniqueIds(events) ==> UniqueIds(Attempted(events, limit, ok))
    decreases events
  {
    if events != [] {
      AttemptedUnique(events[1..], if events[0].processed || limit == 0 then limit else limit - 1, ok);
    }
  }

  lemma {:induction false} PurgedUnique(events: seq<Event>, cutoff: int)
    requires UniqueIds(events)
    ensures UniqueIds(Purged(events, cutoff))
    ensures forall e :: e in Purged(events, cutoff) ==> e in events
  {
    if events != [] {
      UniqueTail(events);
      PurgedUnique(events[1..], cutoff);
      assert events == [events[0]] + events[1..];
    }
  }

  // ---------------------------------------------------------------- accounts

  /** The account of one id: every failure is counted in the event, a success settles it, and
      an event that is gone succeeded once or failed MAX_RETRIES times. */
  ghost predicate AccountOk(s: State, x: Id) {
    var wins, losses := s.history[(x, true)], s.history[(x, false)];
    match Find(s.events, x)
    case Some(e) =>
      && x in s.known && losses == e.retries <= MAX_RETRIES
      && wins == (if e.processed && e.retries < MAX_RETRIES then 1 else 0)
      && (e.retries == MAX_RETRIES ==> e.processed)
    case None =>
      if x in s.known then (wins == 1 && losses < MAX_RETRIES) || (wins == 0 && losses == MAX_RETRIES)
      else wins == 0 && losses == 0
  }

  ghost predicate Inv(s: State) {
    UniqueIds(s.events) && forall x :: AccountOk(s, x)
  }

  lemma FindArrival(arrivals: seq<Event>, known: set<Id>, x: Id)
    requires Fresh(arrivals, known)
    ensures Find(arrivals, x).Some? <==> x in Ids(arrivals)
    ensures Find(arrivals, x).Some? ==> x !in known && Find(arrivals, x).value.retries == 0 && !Find(arrivals, x).value.processed
  {
    FindIsMember(arrivals, x);
  }

  lemma RoundKeepsUnique(s: State, r: Round)
    requires Inv(s) && Fresh(r.arrivals, s.known)
    ensures UniqueIds(Attempted(s.events, BATCH, r.ok) + r.arrivals)
    ensures UniqueIds(After(s, r).events)
  {
    var tried := Attempted(s.events, BATCH, r.ok);
    AttemptedUnique(s.events, BATCH, r.ok);
    forall i | 0 <= i < |tried|
      ensures tried[i].id in s.known
    {
      FindIsMember(s.events, s.events[i].id);
      assert AccountOk(s, s.events[i].id);
    }
    assert forall j :: 0 <= j < |r.arrivals| ==> r.arrivals[j] in r.arrivals;
    PurgedUnique(tried + r.arrivals, r.cutoff);
  }

  lemma RoundKeepsAccount(s: State, r: Round, x: Id)
    requires Inv(s) && Fresh(r.arrivals, s.known)
    ensures AccountOk(After(s, r), x)
  {
    hide UniqueIds, Attempted, Purged, Attempts, Front, Find, Fresh;
    var tried := Attempted(s.events, BATCH, r.ok);
    RoundKeepsUnique(s, r);
    assert AccountOk(s, x);
    FindIsMember(s.events, x);
    FindAttempted(s.events, BATCH, r.ok, x);
    FindAppended(tried, r.arrivals, x);
    FindArrival(r.arrivals, s.known, x);
    FindPurged(tried + r.arrivals, r.cutoff, x);
  }

  lemma {:induction false} RunKeepsInv(s: State, rounds: seq<Round>)
    requires Inv(s) && Legal(s, rounds)
    ensures Inv(Run(s, rounds))
    decreases |rounds|
  {
    hide AccountOk, UniqueIds, Fresh;
    if rounds != [] {
      RoundKeepsUnique(s, rounds[0]);
      forall x
        ensures AccountOk(After(s, rounds[0]), x)
      {
        RoundKeepsAccount(s, rounds[0], x);
      }
      RunKeepsInv(After(s, rounds[0]), rounds[1..]);
    }
  }

  lemma StartInv(arrivals: seq<Event>)
    requires Fresh(arrivals, {})
    ensures Inv(Start(arrivals))
  {
    forall x
      ensures AccountOk(Start(arrivals), x)
    {
      FindArrival(arrivals, {}, x);
    }
  }

  /** In every run, each event is tried at most MAX_RETRIES times and published successfully at
      most once, and one that was purged was published or failed MAX_RETRIES times. */
  lemma DeliveryIsBounded(arrivals: seq<Event>, rounds: seq<Round>, x: Id)
    requires Fresh(arrivals, {}) && Legal(Start(arrivals), rounds)
    ensures var s := Run(Start(arrivals), rounds);
      var wins, losses := s.history[(x, true)], s.history[(x, false)];
      && wins <= 1 && wins + losses <= 3
      && (x in s.known && Find(s.events, x).None? ==> wins == 1 || losses == 3)
      && (x !in s.known ==> wins + losses == 0)
  {
    StartInv(arrivals);
    RunKeepsInv(Start(arrivals), rounds);
    assert AccountOk(Run(Start(arrivals), rounds), x);
  }

  // ---------------------------------------------------------------- when an event is settled

  ghost predicate Pending(events: seq<Event>, x: Id) {
    Find(events, x).Some? && !Find(events, x).value.processed
  }

  /** The ids of the pending events ahead of x. */
  function Ahead(events: seq<Event>, x: Id): set<Id> {
    if events == [] || events[0].id == x then {}
    else (if events[0].processed then {} else {events[0].id}) + Ahead(events[1..], x)
  }

  lemma {:induction false} AheadShrinksOnAttempt(events: seq<Event>, limit: nat, ok: set<Id>, x: Id)
    ensures Ahead(Attempted(events, limit, ok), x) <= Ahead(events, x)
    decreases events
  {
    if events != [] {
      AheadShrinksOnAttempt(events[1..], if events[0].processed || limit == 0 then limit else limit - 1, ok, x);
    }
  }

  lemma {:induction false} AheadShrinksOnPurge(events: seq<Event>, cutoff: int, x: Id)
    requires Pending(events, x)
    ensures Ahead(Purged(events, cutoff), x) <= Ahead(events, x)
  {
    if events[0].id != x {
      AheadShrinksOnPurge(events[1..], cutoff, x);
    }
  }

  lemma {:induction false} AheadIgnoresArrivals(events: seq<Event>, more: seq<Event>, x: Id)
    requires Find(events, x).Some?
    ensures Ahead(events + more, x) == Ahead(events, x)
  {
    assert (events + more)[0] == events[0] && (events + more)[1..] == events[1..] + more;
    if events[0].id != x {
      AheadIgnoresArrivals(events[1..], more, x);
    }
  }

  lemma {:induction false} AheadArePending(events: seq<Event>, x: Id, y: Id)
    requires UniqueIds(events) && y in Ahead(events, x)
    ensures Pending(events, y) && y != x
  {
    UniqueTail(events);
    if events[0].id != y {
      AheadArePending(events[1..], x, y);
    } else {
      AheadAreMembers(events[1..], x);
    }
  }

  lemma {:induction false} AheadAreMembers(events: seq<Event>, x: Id)
    ensures forall y :: y in Ahead(events, x) ==> exists e :: e in events && e.id == y && !e.processed
  {
    if events != [] {
      AheadAreMembers(events[1..], x);
      assert events == [events[0]] + events[1..];
    }
  }

  /** A pending event with fewer than `limit` ahead of it is in the batch; one with more has
      the whole batch ahead of it. */
  lemma {:induction false} FrontOrBehind(events: seq<Event>, limit: nat, x: Id)
    requires UniqueIds(events) && Pending(events, x)
    ensures x in Front(events, limit) <==> |Ahead(events, x)| < limit
    ensures x !in Front(events, limit) ==> Front(events, limit) <= Ahead(events, x) && |Front(events, limit)| == limit
    decreases events
  {
    hide UniqueIds, Find, Front, Ahead;
    QueueNext(events, limit, x);
    var head, tail := events[0], events[1..];
    if head.id == x {
      NoFront(events);
    } else if head.processed {
      FrontOrBehind(tail, limit, x);
    } else if limit == 0 {
      NoFront(events);
    } else {
      FrontOrBehind(tail, limit - 1, x);
    }
  }

  /** What one event at the head of the queue means for the batch, and for those ahead of x. */
  lemma QueueNext(events: seq<Event>, limit: nat, x: Id)
    requires UniqueIds(events) && Pending(events, x)
    ensures events != [] && UniqueIds(events[1..])
    ensures var head, tail := events[0], events[1..];
      && (head.id == x ==> !head.processed && Ahead(events, x) == {})
      && (head.id != x ==> Pending(tail, x) && Ahead(events, x) == (if head.processed then {} else {head.id}) + Ahead(tail, x))
      && head.id !in Ahead(tail, x)
      && (!head.processed && limit > 0 ==> Front(events, limit) == {head.id} + Front(tail, limit - 1) && head.id !in Front(tail, limit - 1))
      && (head.processed || limit == 0 ==> Front(events, limit) == Front(tail, limit))
  {
    hide UniqueIds;
    UniqueTail(events);
    HeadNotAhead(events, x);
  }

  lemma HeadNotAhead(events: seq<Event>, x: Id)
    requires UniqueIds(events) && events != []
    ensures events[0].id !in Ahead(events[1..], x)
  {
    hide UniqueIds;
    UniqueTail(events);
    AheadAreMembers(events[1..], x);
  }

  lemma {:induction false} NoFront(events: seq<Event>)
    ensures Front(events, 0) == {}
  {
    if events != [] {
      NoFront(events[1..]);
    }
  }

  /** One round: an event of the batch is settled or has failed once more, nobody overtakes, and
      nothing that was settled becomes pending again. */
  lemma RoundProgress(s: State, r: Round, x: Id)
    requires Inv(s) && Fresh(r.arrivals, s.known) && x in s.known
    ensures Pending(After(s, r).events, x) ==>
      && Pending(s.events, x)
      && Ahead(After(s, r).events, x) <= Ahead(s.events, x)
      && (|Ahead(s.events, x)| < BATCH ==>
            Find(After(s, r).events, x).value.retries == Find(s.events, x).value.retries + 1)
  {
    hide UniqueIds, Attempted, Purged, Attempts, Front, Find, Fresh, Ahead, Inv;
    InvParts(s, x);
    var tried := Attempted(s.events, BATCH, r.ok);
    RoundKeepsUnique(s, r);
    FindIsMember(s.events, x);
    FindAttempted(s.events, BATCH, r.ok, x);
    FindAppended(tried, r.arrivals, x);
    FindArrival(r.arrivals, s.known, x);
    FindPurged(tried + r.arrivals, r.cutoff, x);
    if Pending(After(s, r).events, x) {
      FrontOrBehind(s.events, BATCH, x);
      AheadShrinksOnAttempt(s.events, BATCH, r.ok, x);
      AheadIgnoresArrivals(tried, r.arrivals, x);
      AheadShrinksOnPurge(tried + r.arrivals, r.cutoff, x);
    }
  }

  lemma InvParts(s: State, x: Id)
    requires Inv(s)
    ensures UniqueIds(s.events) && AccountOk(s, x)
  {
  }

  lemma SubsetSmaller(a: set<Id>, b: set<Id>)
    requires a <= b
    ensures |a| <= |b|
  {
    assert b == a + (b - a);
  }

  lemma {:induction false} RoundsProgress(s: State, rounds: seq<Round>, x: Id)
    requires Inv(s) && Legal(s, rounds) && x in s.known && Pending(Run(s, rounds).events, x)
    ensures Pending(s.events, x) && Ahead(Run(s, rounds).events, x) <= Ahead(s.events, x)
    ensures |Ahead(s.events, x)| < BATCH ==>
      Find(Run(s, rounds).events, x).value.retries == Find(s.events, x).value.retries + |rounds|
    decreases |rounds|
  {
    hide UniqueIds, Find, Ahead, Inv, Fresh, Pending;
    if rounds != [] {
      var t := After(s, rounds[0]);
      RunKeepsInv(s, rounds[..1]);
      assert Run(s, rounds[..1]) == t;
      RoundsProgress(t, rounds[1..], x);
      RoundProgress(s, rounds[0], x);
      SubsetSmaller(Ahead(t.events, x), Ahead(s.events, x));
    }
  }

  /** The front of the queue is settled after MAX_RETRIES ticks. */
  lemma FrontSettles(s: State, rounds: seq<Round>, x: Id)
    requires Inv(s) && Legal(s, rounds) && x in s.known && |rounds| == MAX_RETRIES && |Ahead(s.events, x)| < BATCH
    ensures !Pending(Run(s, rounds).events, x)
  {
    RunKeepsInv(s, rounds);
    InvParts(Run(s, rounds), x);
    if Pending(Run(s, rounds).events, x) {
      RoundsProgress(s, rounds, x);
    }
  }

  /** MAX_RETRIES ticks move a pending event at least BATCH places forward. */
  lemma QueueAdvances(s: State, rounds: seq<Round>, x: Id)
    requires Inv(s) && Legal(s, rounds) && x in s.known && |rounds| == MAX_RETRIES && |Ahead(s.events, x)| >= BATCH
    ensures Pending(Run(s, rounds).events, x) ==> |Ahead(Run(s, rounds).events, x)| <= |Ahead(s.events, x)| - BATCH
  {
    hide Find, Ahead, Fresh, Front, AccountOk, UniqueIds;
    var t := Run(s, rounds);
    if Pending(t.events, x) {
      RoundsProgress(s, rounds, x);
      RunKeepsInv(s, rounds);
      FrontOrBehind(s.events, BATCH, x);
      var front := Front(s.events, BATCH);
      forall y | y in front
        ensures y !in Ahead(t.events, x)
      {
        AheadArePending(s.events, x, y);
        InvParts(s, y);
        PendingIsKnown(s, y);
        FrontOrBehind(s.events, BATCH, y);
        FrontSettles(s, rounds, y);
        if y in Ahead(t.events, x) {
          AheadArePending(t.events, x, y);
        }
      }
      SubsetSmaller(Ahead(t.events, x), Ahead(s.events, x) - front);
      assert |Ahead(s.events, x) - front| == |Ahead(s.events, x)| - |front|;
    }
  }

  lemma PendingIsKnown(s: State, y: Id)
    requires AccountOk(s, y) && Pending(s.events, y)
    ensures y in s.known
  {
  }

  lemma {:induction false} RunSplits(s: State, a: seq<Round>, b: seq<Round>)
    requires Legal(s, a + b)
    ensures Legal(s, a) && Legal(Run(s, a), b) && Run(s, a + b) == Run(Run(s, a), b)
    decreases |a|
  {
    hide Fresh, After;
    if a == [] {
      assert a + b == b;
    } else {
      assert (a + b)[1..] == a[1..] + b;
      RunSplits(After(s, a[0]), a[1..], b);
    }
  }

  /** An event with q pending events ahead of it is published or dead-lettered within
      3 * (q / 50 + 1) ticks, whatever is published and whatever arrives meanwhile. */
  lemma {:induction false} SettledInTime(s: State, rounds: seq<Round>, x: Id, q: nat)
    requires Inv(s) && Legal(s, rounds) && x in s.known && |Ahead(s.events, x)| <= q
    requires |rounds| >= 3 * (q / 50 + 1)
    ensures !Pending(Run(s, rounds).events, x)
    decreases q
  {
    hide Find, Ahead, Fresh, AccountOk, UniqueIds, Pending, Run, Legal, Inv;
    var first, rest := rounds[..MAX_RETRIES], rounds[MAX_RETRIES..];
    assert rounds == first + rest;
    RunSplits(s, first, rest);
    var t := Run(s, first);
    RunKeepsInv(s, first);
    KnownLasts(s, first, x);
    if !Pending(t.events, x) || |Ahead(s.events, x)| < BATCH {
      if Pending(t.events, x) {
        FrontSettles(s, first, x);
      }
      if Pending(Run(t, rest).events, x) {
        RoundsProgress(t, rest, x);
      }
    } else {
      QueueAdvances(s, first, x);
      SettledInTime(t, rest, x, q - BATCH);
    }
  }

  lemma {:induction false} KnownLasts(s: State, rounds: seq<Round>, x: Id)
    requires x in s.known
    ensures x in Run(s, rounds).known
    decreases |rounds|
  {
    if rounds != [] {
      KnownLasts(After(s, rounds[0]), rounds[1..], x);
    }
  }

  // ---------------------------------------------------------------- the order of delivery

  /** All pending events, in the order in which they were enqueued. */
  function AllPending(events: seq<Event>): seq<Event> {
    if events == [] then [] else (if events[0].processed then [] else [events[0]]) + AllPending(events[1..])
  }

  /** A batch is the first pending events, as many as the limit lets it have. */
  lemma {:induction false} BatchIsFirst(events: seq<Event>, limit: nat)
    ensures FirstPending(events, limit) == AtMost(AllPending(events), limit)
  {
    hide AtMost;
    if events == [] {
      AtMostNone(limit);
    } else {
      var tail, rest := events[1..], AllPending(events[1..]);
      if events[0].processed {
        BatchIsFirst(tail, limit);
        assert AllPending(events) == rest;
      } else {
        BatchIsFirst(tail, if limit == 0 then 0 else limit - 1);
        AtMostNext(events[0], rest, limit);
      }
    }
  }

  function AtMost(all: seq<Event>, limit: nat): seq<Event> {
    all[..if limit < |all| then limit else |all|]
  }

  lemma AtMostNone(limit: nat)
    ensures AtMost([], limit) == []
  {
  }

  lemma AtMostNext(e: Event, rest: seq<Event>, limit: nat)
    ensures AtMost([e] + rest, limit) == if limit == 0 then AtMost(rest, 0) else [e] + AtMost(rest, limit - 1)
  {
  }

  /** A tick attempts at most fifty, and fewer only when no more are pending. */
  lemma BatchHasFifty(events: seq<Event>)
    ensures var all := AllPending(events);
      |FirstPending(events, BATCH)| == if |all| < 50 then |all| else 50
  {
    BatchIsFirst(events, BATCH);
  }
}
