/** The outbox of platform/infrastructure.go and the single worker of platform/service.go that
    drains it: at most BATCH events a tick, each retried until MAX_RETRIES failures. */
module Outbox {

  const BATCH := 50
  const MAX_RETRIES := 3

  /** Event ids are random; runs below assume that no id is drawn twice. */
  type Id = int

  datatype Event = Event(id: Id, createdAt: int, retries: nat, processed: bool)

  function Ids(events: seq<Event>): set<Id> {
    set e | e in events :: e.id
  }

  ghost predicate UniqueIds(events: seq<Event>) {
    forall i, j :: 0 <= i < j < |events| ==> events[i].id != events[j].id
  }

  // ---------------------------------------------------------------- the operations on values

  function FirstPending(events: seq<Event>, limit: nat): seq<Event> {
    if events == [] then []
    else if !events[0].processed && limit > 0 then [events[0]] + FirstPending(events[1..], limit - 1)
    else FirstPending(events[1..], limit)
  }

  function Succeeded(e: Event): Event {
    e.(processed := true)
  }

  function Failed(e: Event): Event {
    e.(retries := e.retries + 1, processed := e.processed || e.retries + 1 >= MAX_RETRIES)
  }

  /** The result of an attempt, recorded in the first event with this id. */
  function Marked(events: seq<Event>, id: Id, ok: bool): seq<Event> {
    if events == [] then []
    else if events[0].id == id then [if ok then Succeeded(events[0]) else Failed(events[0])] + events[1..]
    else [events[0]] + Marked(events[1..], id, ok)
  }

  function Purged(events: seq<Event>, cutoff: int): seq<Event> {
    if events == [] then []
    else if events[0].processed && events[0].createdAt < cutoff then Purged(events[1..], cutoff)
    else [events[0]] + Purged(events[1..], cutoff)
  }

  /** One attempt to publish; `ok` holds the ids whose publish succeeds. */
  function Tried(e: Event, ok: set<Id>): Event {
    if e.id in ok then Succeeded(e) else Failed(e)
  }

  /** The events after an attempt on each of the first `limit` pending ones. */
  function Attempted(events: seq<Event>, limit: nat, ok: set<Id>): seq<Event> {
    if events == [] then []
    else if !events[0].processed && limit > 0 then [Tried(events[0], ok)] + Attempted(events[1..], limit - 1, ok)
    else [events[0]] + Attempted(events[1..], limit, ok)
  }

  /** The events after one tick of the worker, with `arrivals` enqueued at any time during it. */
  function Ticked(events: seq<Event>, ok: set<Id>, arrivals: seq<Event>, cutoff: int): seq<Event> {
    Purged(Attempted(events, BATCH, ok) + arrivals, cutoff)
  }

  // ---------------------------------------------------------------- the outbox

  class Outbox {
    var events: seq<Event>

    constructor ()
      ensures events == []
    {
      events := [];
    }

    method Enqueue(id: Id, now: int)
      modifies this
      ensures events == old(events) + [Event(id, now, 0, false)]
    {
      events := events + [Event(id, now, 0, false)];
    }

    method Dequeue(limit: nat) returns (result: seq<Event>)
      ensures result == FirstPending(events, limit)
    {
      result := [];
      var i := 0;
      while i < |events|
        invariant 0 <= i <= |events| && |result| <= limit
        invariant result + FirstPending(events[i..], limit - |result|) == FirstPending(events, limit)
      {
        var e := events[i];
        assert events[i..][1..] == events[i + 1..];
        if !e.processed && |result| < limit {
          ghost var rest := FirstPending(events[i + 1..], limit - |result| - 1);
          assert result + ([e] + rest) == (result + [e]) + rest;
          result := result + [e];
        }
        i := i + 1;
      }
    }

    method MarkProcessed(id: Id)
      modifies this
      ensures events == Marked(old(events), id, true)
    {
      hide Marked, MarkedFrom;
      MarkedStart(events, id, true);
      var i := 0;
      while i < |events|
        invariant 0 <= i <= |events| && events == old(events)
        invariant i < |events| ==> MarkedFrom(events, i, id, true)
        invariant i == |events| ==> Marked(events, id, true) == events
      {
        MarkedStep(events, i, id, true);
        if events[i].id == id {
          events := events[i := events[i].(processed := true)];
          return;
        }
        i := i + 1;
      }
    }

    method MarkFailed(id: Id)
      modifies this
      ensures events == Marked(old(events), id, false)
    {
      hide Marked, MarkedFrom;
      MarkedStart(events, id, false);
      var i := 0;
      while i < |events|
        invariant 0 <= i <= |events| && events == old(events)
        invariant i < |events| ==> MarkedFrom(events, i, id, false)
        invariant i == |events| ==> Marked(events, id, false) == events
      {
        MarkedStep(events, i, id, false);
        if events[i].id == id {
          var e := events[i].(retries := events[i].retries + 1);
          if e.retries >= MAX_RETRIES {
            e := e.(processed := true);
          }
          events := events[i := e];
          return;
        }
        i := i + 1;
      }
    }

    method Purge(cutoff: int)
      modifies this
      ensures events == Purged(old(events), cutoff)
    {
      var kept: seq<Event> := [];
      var i := 0;
      while i < |events|
        invariant 0 <= i <= |events| && events == old(events)
        invariant kept + Purged(events[i..], cutoff) == Purged(events, cutoff)
      {
        assert events[i..][1..] == events[i + 1..];
        if !(events[i].processed && events[i].createdAt < cutoff) {
          assert kept + ([events[i]] + Purged(events[i + 1..], cutoff)) == (kept + [events[i]]) + Purged(events[i + 1..], cutoff);
          kept := kept + [events[i]];
        }
        i := i + 1;
      }
      events := kept;
    }

    /** One tick of the worker. Before the result of attempt i is recorded, arrivals[i] are
        enqueued; the last group arrives before the purge. */
    method Tick(ok: set<Id>, arrivals: seq<seq<Event>>, cutoff: int)
      requires UniqueIds(events)
      requires |arrivals| == |FirstPending(events, BATCH)| + 1
      requires forall group, e :: group in arrivals && e in group ==> e.retries == 0 && !e.processed
      modifies this
      ensures events == Ticked(old(events), ok, Flat(arrivals), cutoff)
    {
      hide Attempted, Marked, Purged, Flat, FirstPending, UniqueIds;
      var batch := Dequeue(BATCH);
      ghost var start := events;
      NoAttempt(start, ok);
      NoArrivals();
      assert start + [] == start && arrivals[..0] == [];
      for i := 0 to |batch|
        invariant events == Attempted(start, i, ok) + Flat(arrivals[..i])
      {
        Arrive(arrivals[i]);
        FlatStep(arrivals, i);
        assert events == Attempted(start, i, ok) + Flat(arrivals[..i + 1]);
        AttemptNext(start, BATCH, i, ok, Flat(arrivals[..i + 1]));
        if batch[i].id in ok {
          MarkProcessed(batch[i].id);
        } else {
          MarkFailed(batch[i].id);
        }
      }
      Arrive(arrivals[|batch|]);
      FlatStep(arrivals, |batch|);
      assert arrivals[..|batch| + 1] == arrivals;
      AttemptAll(start, BATCH, ok);
      assert events == Attempted(start, BATCH, ok) + Flat(arrivals);
      Purge(cutoff);
    }

    method Arrive(group: seq<Event>)
      requires forall e :: e in group ==> e.retries == 0 && !e.processed
      modifies this
      ensures events == old(events) + group
    {
      for i := 0 to |group|
        invariant events == old(events) + group[..i]
      {
        Enqueue(group[i].id, group[i].createdAt);
        assert group[..i + 1] == group[..i] + [group[i]];
      }
      assert group[..|group|] == group;
    }
  }

  function Flat(groups: seq<seq<Event>>): seq<Event> {
    if groups == [] then [] else Flat(groups[..|groups| - 1]) + groups[|groups| - 1]
  }

  lemma FlatStep(groups: seq<seq<Event>>, i: nat)
    requires i < |groups|
    ensures Flat(groups[..i + 1]) == Flat(groups[..i]) + groups[i]
  {
    assert groups[..i + 1][..i] == groups[..i];
  }

  lemma NoArrivals()
    ensures Flat([]) == []
  {
  }

  lemma {:induction false} NoAttempt(events: seq<Event>, ok: set<Id>)
    ensures Attempted(events, 0, ok) == events
  {
    if events != [] {
      NoAttempt(events[1..], ok);
    }
  }

  /** A limit beyond the pending events attempts no more than there are. */
  lemma {:induction false} AttemptAll(events: seq<Event>, limit: nat, ok: set<Id>)
    ensures |FirstPending(events, limit)| <= limit
    ensures Attempted(events, |FirstPending(events, limit)|, ok) == Attempted(events, limit, ok)
  {
    if events != [] {
      if !events[0].processed && limit > 0 {
        AttemptAll(events[1..], limit - 1, ok);
      } else {
        AttemptAll(events[1..], limit, ok);
      }
    }
  }

  /** Nothing before position i has the id. */
  ghost predicate MarkedFrom(events: seq<Event>, i: nat, id: Id, ok: bool)
    requires i <= |events|
  {
    events[..i] + Marked(events[i..], id, ok) == Marked(events, id, ok)
  }

  lemma MarkedStart(events: seq<Event>, id: Id, ok: bool)
    ensures MarkedFrom(events, 0, id, ok)
    ensures events == [] ==> Marked(events, id, ok) == events
  {
    assert events[0..] == events && events[..0] == [];
  }

  lemma MarkedStep(events: seq<Event>, i: nat, id: Id, ok: bool)
    requires i < |events| && MarkedFrom(events, i, id, ok)
    ensures events[i].id != id ==> MarkedFrom(events, i + 1, id, ok)
    ensures events[i].id == id ==>
      Marked(events, id, ok) == events[i := if ok then Succeeded(events[i]) else Failed(events[i])]
    ensures i + 1 == |events| && events[i].id != id ==> Marked(events, id, ok) == events
  {
    var tail := events[i..];
    assert tail[0] == events[i] && tail[1..] == events[i + 1..];
    if events[i].id != id {
      assert events[..i] + ([events[i]] + Marked(events[i + 1..], id, ok)) == events[..i + 1] + Marked(events[i + 1..], id, ok);
    }
  }

  lemma {:induction false} PendingAreMembers(events: seq<Event>, limit: nat)
    ensures forall e :: e in FirstPending(events, limit) ==> e in events && !e.processed
  {
    if events != [] {
      if !events[0].processed && limit > 0 {
        PendingAreMembers(events[1..], limit - 1);
      } else {
        PendingAreMembers(events[1..], limit);
      }
    }
  }

  /** Recording the result for the i-th event of the batch by its id is the i-th attempt. */
  lemma {:induction false} AttemptNext(start: seq<Event>, limit: nat, i: nat, ok: set<Id>, arrived: seq<Event>)
    requires UniqueIds(start) && i < |FirstPending(start, limit)|
    ensures var id := FirstPending(start, limit)[i].id;
      Marked(Attempted(start, i, ok) + arrived, id, id in ok) == Attempted(start, i + 1, ok) + arrived
    decreases |start|
  {
    var head, tail := start[0], start[1..];
    var id := FirstPending(start, limit)[i].id;
    AttemptAll(start, limit, ok);
    if !head.processed && i == 0 {
      NoAttempt(tail, ok);
      NoAttempt(start, ok);
      assert (start + arrived)[1..] == tail + arrived;
      assert [Tried(head, ok)] + (tail + arrived) == ([Tried(head, ok)] + tail) + arrived;
    } else {
      var head' := if head.processed then head else Tried(head, ok);
      var limit', i' := if head.processed then limit else limit - 1, if head.processed then i else i - 1;
      TailMember(start, limit, limit', i, i');
      AttemptNext(tail, limit', i', ok, arrived);
      assert Attempted(start, i, ok) == [head'] + Attempted(tail, i', ok);
      assert Attempted(start, i + 1, ok) == [head'] + Attempted(tail, i' + 1, ok);
      ConsMarked(head', Attempted(tail, i', ok), arrived, id, id in ok);
      assert ([head'] + Attempted(tail, i' + 1, ok)) + arrived == [head'] + (Attempted(tail, i' + 1, ok) + arrived);
    }
  }

  lemma TailMember(start: seq<Event>, limit: nat, limit': nat, i: nat, i': nat)
    requires UniqueIds(start) && i < |FirstPending(start, limit)| && limit > 0
    requires if start[0].processed then limit' == limit && i' == i else limit' == limit - 1 && i' == i - 1
    ensures i' < |FirstPending(start[1..], limit')| && FirstPending(start, limit)[i] == FirstPending(start[1..], limit')[i']
    ensures FirstPending(start, limit)[i].id != start[0].id
  {
    PendingAreMembers(start[1..], limit');
    assert FirstPending(start[1..], limit')[i'] in start[1..];
  }

  lemma ConsMarked(head: Event, rest: seq<Event>, arrived: seq<Event>, id: Id, ok: bool)
    requires head.id != id
    ensures Marked(([head] + rest) + arrived, id, ok) == [head] + Marked(rest + arrived, id, ok)
  {
    assert (([head] + rest) + arrived)[1..] == rest + arrived;
  }
}
