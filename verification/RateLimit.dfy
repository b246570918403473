/** The fixed-window rate limiter with its lazy sweep (middleware/rate_limit.go). Times are whole
    nanoseconds. */
module RateLimit {
  const DEFAULT_MAX := 60
  const MINUTE := 60_000_000_000

  datatype Client = Client(ip: string)

  datatype Bucket = Bucket(windowStart: int, count: nat)

  datatype Limits = Limits(max: nat, window: nat)

  datatype Request = Request(key: Client, now: int)

  type Buckets = map<Client, Bucket>

  predicate Usable(lim: Limits) {
    lim.max > 0 && lim.window > 0
  }

  predicate Elapsed(lim: Limits, since: int, now: int) {
    now - since >= lim.window
  }

  /** One client's bucket after it made a request. */
  function Hit(lim: Limits, m: Buckets, r: Request): Bucket {
    if r.key !in m || Elapsed(lim, m[r.key].windowStart, r.now) then Bucket(r.now, 1)
    else Bucket(m[r.key].windowStart, m[r.key].count + 1)
  }

  predicate Admits(lim: Limits, m: Buckets, r: Request) {
    Hit(lim, m, r).count <= lim.max
  }

  function Swept(lim: Limits, m: Buckets, now: int): Buckets {
    map k | k in m && !Elapsed(lim, m[k].windowStart, now) :: m[k]
  }

  /** The buckets a request finds, after the sweep that may be due. */
  function Found(lim: Limits, m: Buckets, lastSweep: int, now: int): Buckets {
    if Elapsed(lim, lastSweep, now) then Swept(lim, m, now) else m
  }

  /** The answers of the limiter to a list of requests. */
  function Decisions(lim: Limits, m: Buckets, lastSweep: int, rs: seq<Request>): (ds: seq<bool>)
    ensures |ds| == |rs|
    decreases |rs|
  {
    if rs == [] then []
    else
      var r := rs[0];
      var f := Found(lim, m, lastSweep, r.now);
      [Admits(lim, f, r)]
      + Decisions(lim, f[r.key := Hit(lim, f, r)], if Elapsed(lim, lastSweep, r.now) then r.now else lastSweep, rs[1..])
  }

  /** The answers of a limiter that keeps every bucket for ever. */
  function Plain(lim: Limits, m: Buckets, rs: seq<Request>): (ds: seq<bool>)
    ensures |ds| == |rs|
    decreases |rs|
  {
    if rs == [] then []
    else [Admits(lim, m, rs[0])] + Plain(lim, m[rs[0].key := Hit(lim, m, rs[0])], rs[1..])
  }

  predicate OrderedFrom(rs: seq<Request>, last: int) {
    rs == [] || (last <= rs[0].now && OrderedFrom(rs[1..], rs[0].now))
  }

  // ---------------------------------------------------------------- the sweep

  /** `m` is `all` without some buckets whose window is over. */
  ghost predicate Forgets(lim: Limits, m: Buckets, all: Buckets, now: int) {
    && (forall k :: k in m ==> k in all && m[k] == all[k])
    && (forall k :: k in all && k !in m ==> Elapsed(lim, all[k].windowStart, now))
  }

  lemma {:induction false} ForgettingIsInvisible(lim: Limits, m: Buckets, all: Buckets, lastSweep: int, rs: seq<Request>, last: int)
    requires Forgets(lim, m, all, last) && OrderedFrom(rs, last)
    ensures Decisions(lim, m, lastSweep, rs) == Plain(lim, all, rs)
    decreases |rs|
  {
    if rs != [] {
      var r := rs[0];
      var f := Found(lim, m, lastSweep, r.now);
      assert Forgets(lim, f, all, r.now);
      assert Hit(lim, f, r) == Hit(lim, all, r);
      ForgettingIsInvisible(lim, f[r.key := Hit(lim, f, r)], all[r.key := Hit(lim, all, r)],
                            if Elapsed(lim, lastSweep, r.now) then r.now else lastSweep, rs[1..], r.now);
    }
  }

  /** With a clock that does not run back, the swept limiter answers every request as one that
      never sweeps. */
  lemma SweepIsInvisible(lim: Limits, start: int, rs: seq<Request>)
    requires OrderedFrom(rs, start)
    ensures Decisions(lim, map[], start, rs) == Plain(lim, map[], rs)
  {
    ForgettingIsInvisible(lim, map[], map[], start, rs, start);
  }

  // ---------------------------------------------------------------- one client

  function OfClient(rs: seq<Request>, key: Client): seq<Request> {
    if rs == [] then [] else (if rs[0].key == key then [rs[0]] else []) + OfClient(rs[1..], key)
  }

  /** The answers given to one client. */
  function Answers(rs: seq<Request>, ds: seq<bool>, key: Client): seq<bool>
    requires |rs| == |ds|
  {
    if rs == [] then [] else (if rs[0].key == key then [ds[0]] else []) + Answers(rs[1..], ds[1..], key)
  }

  lemma {:induction false} PlainIndependent(lim: Limits, m: Buckets, own: Buckets, rs: seq<Request>, key: Client)
    requires key in m <==> key in own
    requires key in m ==> m[key] == own[key]
    ensures Answers(rs, Plain(lim, m, rs), key) == Plain(lim, own, OfClient(rs, key))
    decreases |rs|
  {
    if rs != [] {
      var r := rs[0];
      var next := m[r.key := Hit(lim, m, r)];
      if r.key == key {
        PlainIndependent(lim, next, own[key := Hit(lim, own, r)], rs[1..], key);
        assert ([r] + OfClient(rs[1..], key))[1..] == OfClient(rs[1..], key);
      } else {
        PlainIndependent(lim, next, own, rs[1..], key);
        assert OfClient(rs, key) == OfClient(rs[1..], key);
        assert Plain(lim, m, rs)[1..] == Plain(lim, next, rs[1..]);
      }
    }
  }

  lemma {:induction false} OfClientOrdered(rs: seq<Request>, last: int, key: Client)
    requires OrderedFrom(rs, last)
    ensures OrderedFrom(OfClient(rs, key), last)
  {
    if rs != [] {
      OfClientOrdered(rs[1..], rs[0].now, key);
      var rest := OfClient(rs[1..], key);
      if rs[0].key == key {
        assert OfClient(rs, key)[1..] == rest;
      } else {
        assert OfClient(rs, key) == rest;
      }
    }
  }

  /** A client is answered as if no other client existed, although any client's request may sweep. */
  lemma ClientsAreIndependent(lim: Limits, start: int, rs: seq<Request>, key: Client)
    requires OrderedFrom(rs, start)
    ensures Answers(rs, Decisions(lim, map[], start, rs), key) == Decisions(lim, map[], start, OfClient(rs, key))
  {
    SweepIsInvisible(lim, start, rs);
    OfClientOrdered(rs, start, key);
    SweepIsInvisible(lim, start, OfClient(rs, key));
    PlainIndependent(lim, map[], map[], rs, key);
  }

  // ---------------------------------------------------------------- how much gets through

  predicate Within(lim: Limits, r: Request, key: Client, t: int) {
    r.key == key && t <= r.now < t + lim.window
  }

  /** How many requests of `key` in the window that begins at `t` were let through. */
  function Admitted(lim: Limits, rs: seq<Request>, ds: seq<bool>, key: Client, t: int): nat
    requires |rs| == |ds|
  {
    if rs == [] then 0
    else (if Within(lim, rs[0], key, t) && ds[0] then 1 else 0) + Admitted(lim, rs[1..], ds[1..], key, t)
  }

  function Left(lim: Limits, b: Bucket): nat {
    if b.count < lim.max then lim.max - b.count else 0
  }

  /** The most that a window's length can let through. */
  function Most(lim: Limits): int {
    if lim.window == 1 then lim.max else 2 * lim.max - 1
  }

  /** How many more admissions in the window beginning at `t` a client's bucket leaves room for. */
  function Room(lim: Limits, m: Buckets, key: Client, t: int): int {
    if key !in m || m[key].windowStart + lim.window < t then Most(lim)
    else if m[key].windowStart + lim.window == t then lim.max
    else if m[key].windowStart < t then Left(lim, m[key]) + lim.max
    else if m[key].windowStart < t + lim.window then Left(lim, m[key])
    else 0
  }

  ghost predicate Counted(m: Buckets) {
    forall k :: k in m ==> m[k].count >= 1
  }

  lemma RoomStep(lim: Limits, m: Buckets, r: Request, key: Client, t: int)
    requires Usable(lim) && Counted(m)
    requires key in m ==> m[key].windowStart <= r.now
    ensures var next := m[r.key := Hit(lim, m, r)];
      Counted(next) &&
      Room(lim, next, key, t) + (if Within(lim, r, key, t) && Admits(lim, m, r) then 1 else 0) <= Room(lim, m, key, t)
  {
  }

  lemma {:induction false} AdmittedWithinRoom(lim: Limits, m: Buckets, rs: seq<Request>, last: int, key: Client, t: int)
    requires Usable(lim) && Counted(m) && OrderedFrom(rs, last)
    requires key in m ==> m[key].windowStart <= last
    ensures 0 <= Admitted(lim, rs, Plain(lim, m, rs), key, t) <= Room(lim, m, key, t)
    decreases |rs|
  {
    if rs != [] {
      RoomStep(lim, m, rs[0], key, t);
      AdmittedWithinRoom(lim, m[rs[0].key := Hit(lim, m, rs[0])], rs[1..], rs[0].now, key, t);
    }
  }

  /** Any half-open interval as long as the window lets at most 2·max − 1 requests of one client
      through, and at most max when the window is a single nanosecond. */
  lemma WindowIsBounded(lim: Limits, start: int, rs: seq<Request>, key: Client, t: int)
    requires Usable(lim) && OrderedFrom(rs, start)
    ensures Admitted(lim, rs, Decisions(lim, map[], start, rs), key, t) <= Most(lim)
  {
    SweepIsInvisible(lim, start, rs);
    AdmittedWithinRoom(lim, map[], rs, start, key, t);
  }

  // ---------------------------------------------------------------- the bound is reached

  function Burst(key: Client, now: int, n: nat): (rs: seq<Request>)
    ensures |rs| == n
  {
    if n == 0 then [] else [Request(key, now)] + Burst(key, now, n - 1)
  }

  lemma {:induction false} BurstOrdered(key: Client, now: int, n: nat, rest: seq<Request>, last: int)
    requires last <= now && OrderedFrom(rest, now)
    ensures OrderedFrom(Burst(key, now, n) + rest, last)
  {
    if n > 0 {
      BurstOrdered(key, now, n - 1, rest, now);
      assert (Burst(key, now, n) + rest)[1..] == Burst(key, now, n - 1) + rest;
    } else {
      assert Burst(key, now, n) + rest == rest;
    }
  }

  /** A burst that fits in the client's bucket is let through whole. */
  lemma {:induction false} BurstAdmitted(lim: Limits, b: Bucket, key: Client, now: int, n: nat, rest: seq<Request>, t: int)
    requires b.count + n <= lim.max && !Elapsed(lim, b.windowStart, now) && t <= now < t + lim.window
    ensures
      Admitted(lim, Burst(key, now, n) + rest, Plain(lim, map[key := b], Burst(key, now, n) + rest), key, t)
      == n + Admitted(lim, rest, Plain(lim, map[key := Bucket(b.windowStart, b.count + n)], rest), key, t)
    decreases n
  {
    hide Plain, Admitted;
    if n > 0 {
      var next := Bucket(b.windowStart, b.count + 1);
      BurstStep(lim, b, key, now, Burst(key, now, n - 1) + rest, t);
      BurstAdmitted(lim, next, key, now, n - 1, rest, t);
      assert [Request(key, now)] + (Burst(key, now, n - 1) + rest) == Burst(key, now, n) + rest;
    } else {
      assert Burst(key, now, 0) + rest == rest;
    }
  }

  lemma BurstStep(lim: Limits, b: Bucket, key: Client, now: int, tail: seq<Request>, t: int)
    requires b.count < lim.max && !Elapsed(lim, b.windowStart, now) && t <= now < t + lim.window
    ensures var rs, next := [Request(key, now)] + tail, Bucket(b.windowStart, b.count + 1);
      Admitted(lim, rs, Plain(lim, map[key := b], rs), key, t)
      == 1 + Admitted(lim, tail, Plain(lim, map[key := next], tail), key, t)
  {
    var rs, next := [Request(key, now)] + tail, Bucket(b.windowStart, b.count + 1);
    assert map[key := b][key := next] == map[key := next];
    assert rs[1..] == tail && Plain(lim, map[key := b], rs)[1..] == Plain(lim, map[key := next], tail);
  }

  /** One early request, then the rest of its bucket and the whole of the next; with a window of
      one nanosecond, one full bucket. */
  function Straddle(lim: Limits, key: Client): seq<Request>
    requires Usable(lim)
  {
    if lim.window == 1 then Burst(key, 0, 1) + Burst(key, 0, lim.max - 1)
    else Burst(key, 0, 1) + (Burst(key, lim.window - 1, lim.max - 1) + Burst(key, lim.window, lim.max))
  }

  /** For every limit the bound is reached. */
  lemma BoundIsReached(lim: Limits, key: Client)
    requires Usable(lim)
    ensures OrderedFrom(Straddle(lim, key), 0)
    ensures Admitted(lim, Straddle(lim, key), Decisions(lim, map[], 0, Straddle(lim, key)), key, lim.window - 1) == Most(lim)
  {
    hide Plain, Admitted, Decisions;
    var w, t := lim.window, lim.window - 1;
    var second := if w == 1 then [] else Burst(key, w, lim.max);
    var tail := Burst(key, w - 1, lim.max - 1) + second;
    var rs := Straddle(lim, key);
    assert Burst(key, w, lim.max) + [] == Burst(key, w, lim.max);
    assert Burst(key, w - 1, lim.max - 1) + [] == Burst(key, w - 1, lim.max - 1);
    assert rs == Burst(key, 0, 1) + tail;
    if w > 1 {
      BurstOrdered(key, w, lim.max, [], w - 1);
    }
    BurstOrdered(key, w - 1, lim.max - 1, second, 0);
    BurstOrdered(key, 0, 1, tail, 0);
    SweepIsInvisible(lim, 0, rs);
    assert Burst(key, 0, 1) == [Request(key, 0)];
    BucketReplaced(lim, map[], key, 0, tail, t);
    BurstAdmitted(lim, Bucket(0, 1), key, w - 1, lim.max - 1, second, t);
    if w > 1 {
      var full: Buckets := map[key := Bucket(0, lim.max)];
      var rest := Burst(key, w, lim.max - 1);
      assert second == [Request(key, w)] + rest && rest + [] == rest;
      BucketReplaced(lim, full, key, w, rest, t);
      BurstAdmitted(lim, Bucket(w, 1), key, w, lim.max - 1, [], t);
    }
    NothingAdmitted(lim, map[key := Bucket(w, lim.max)], key, t);
    NothingAdmitted(lim, map[key := Bucket(0, lim.max)], key, t);
  }

  lemma NothingAdmitted(lim: Limits, m: Buckets, key: Client, t: int)
    ensures Admitted(lim, [], Plain(lim, m, []), key, t) == 0
  {
  }

  /** A request that finds no bucket, or one that is over, opens a new one and is let through. */
  lemma BucketReplaced(lim: Limits, m: Buckets, key: Client, now: int, tail: seq<Request>, t: int)
    requires Usable(lim) && m.Keys <= {key} && (key in m ==> Elapsed(lim, m[key].windowStart, now))
    ensures var rs, one := [Request(key, now)] + tail, map[key := Bucket(now, 1)];
      Admitted(lim, rs, Plain(lim, m, rs), key, t)
      == (if t <= now < t + lim.window then 1 else 0) + Admitted(lim, tail, Plain(lim, one, tail), key, t)
  {
    var rs := [Request(key, now)] + tail;
    assert rs[1..] == tail && m[key := Bucket(now, 1)] == map[key := Bucket(now, 1)];
    assert Plain(lim, m, rs)[1..] == Plain(lim, map[key := Bucket(now, 1)], tail);
  }

  // ---------------------------------------------------------------- who gets refused

  /** How many requests of `key` are later than `after`. */
  function Made(rs: seq<Request>, key: Client, after: int): nat {
    if rs == [] then 0 else (if rs[0].key == key && rs[0].now > after then 1 else 0) + Made(rs[1..], key, after)
  }

  function Carried(m: Buckets, key: Client, after: int): nat {
    if key in m && m[key].windowStart > after then m[key].count else 0
  }

  lemma {:induction false} RefusalNeedsRequests(lim: Limits, m: Buckets, rs: seq<Request>, last: int, i: nat)
    requires OrderedFrom(rs, last) && i < |rs| && !Plain(lim, m, rs)[i]
    requires lim.max > 0
    requires forall k :: k in m ==> m[k].windowStart <= last
    ensures Carried(m, rs[i].key, rs[i].now - lim.window) + Made(rs[..i], rs[i].key, rs[i].now - lim.window) >= lim.max
    decreases |rs|
  {
    if i > 0 {
      var next := m[rs[0].key := Hit(lim, m, rs[0])];
      RefusalNeedsRequests(lim, next, rs[1..], rs[0].now, i - 1);
      assert rs[..i][1..] == rs[1..][..i - 1];
    }
  }

  /** A client is refused only when it already made `max` requests less than a window ago. */
  lemma RefusedOnlyWhenBusy(lim: Limits, start: int, rs: seq<Request>, i: nat)
    requires Usable(lim) && OrderedFrom(rs, start) && i < |rs|
    ensures !Decisions(lim, map[], start, rs)[i] ==> Made(rs[..i], rs[i].key, rs[i].now - lim.window) >= lim.max
  {
    SweepIsInvisible(lim, start, rs);
    if !Plain(lim, map[], rs)[i] {
      RefusalNeedsRequests(lim, map[], rs, start, i);
    }
  }

  // ---------------------------------------------------------------- the limiter

  class Limiter {
    const lim: Limits
    var buckets: map<Client, Bucket>
    var lastSweep: int

    constructor (maxRequests: int, window: int, now: int)
      ensures lim == Limits(if maxRequests <= 0 then 60 else maxRequests, if window <= 0 then 60_000_000_000 else window)
      ensures Usable(lim) && buckets == map[] && lastSweep == now
    {
      lim := Limits(if maxRequests <= 0 then DEFAULT_MAX else maxRequests, if window <= 0 then MINUTE else window);
      buckets, lastSweep := map[], now;
    }

    method Sweep(now: int)
      modifies this
      ensures buckets == Swept(lim, old(buckets), now) && lastSweep == now
    {
      var pending := buckets.Keys;
      while pending != {}
        invariant pending <= buckets.Keys <= old(buckets).Keys
        invariant forall k :: k in buckets ==> buckets[k] == old(buckets)[k]
        invariant forall k :: k in old(buckets) && k !in pending ==>
                    (k in buckets <==> !Elapsed(lim, old(buckets)[k].windowStart, now))
        decreases |pending|
      {
        var k :| k in pending;
        if Elapsed(lim, buckets[k].windowStart, now) {
          buckets := buckets - {k};
        }
        pending := pending - {k};
      }
      lastSweep := now;
    }

    /** Whether a request may pass. */
    method Allow(key: Client, now: int) returns (ok: bool)
      modifies this
      ensures var found := Found(lim, old(buckets), old(lastSweep), now);
        && ok == Admits(lim, found, Request(key, now))
        && buckets == found[key := Hit(lim, found, Request(key, now))]
      ensures lastSweep == if Elapsed(lim, old(lastSweep), now) then now else old(lastSweep)
    {
      if now - lastSweep >= lim.window {
        Sweep(now);
      }
      var state := Bucket(now, 0);
      if key in buckets && now - buckets[key].windowStart < lim.window {
        state := buckets[key];
      }
      state := state.(count := state.count + 1);
      buckets := buckets[key := state];
      ok := state.count <= lim.max;
    }

    /** Serving requests one after another gives the answers the theorems above speak of. */
    method Serve(rs: seq<Request>) returns (ds: seq<bool>)
      modifies this
      ensures ds == Decisions(lim, old(buckets), old(lastSweep), rs)
      decreases |rs|
    {
      if rs == [] {
        return [];
      }
      var ok := Allow(rs[0].key, rs[0].now);
      var rest := Serve(rs[1..]);
      ds := [ok] + rest;
    }
  }
}
