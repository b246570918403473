/** The rate limiter on a clock that runs back: the source reads the clock before it takes the lock,
    so a request can be stamped before one that was served earlier. */
module LimiterClock {
  import opened RateLimit

  /** No request is stamped more than `skew` before one that was served earlier. */
  predicate SkewedFrom(rs: seq<Request>, latest: int, skew: nat) {
    rs == [] ||
    (latest - skew <= rs[0].now && SkewedFrom(rs[1..], if rs[0].now > latest then rs[0].now else latest, skew))
  }

  lemma {:induction false} NoSkewIsOrdered(rs: seq<Request>, latest: int)
    ensures SkewedFrom(rs, latest, 0) <==> OrderedFrom(rs, latest)
  {
    if rs != [] && latest <= rs[0].now {
      NoSkewIsOrdered(rs[1..], rs[0].now);
    }
  }

  /** The sweep changes no answer to requests with this skew. */
  ghost predicate SweepHidden(lim: Limits, start: int, skew: nat) {
    forall rs :: SkewedFrom(rs, start, skew) ==> Decisions(lim, map[], start, rs) == Plain(lim, map[], rs)
  }

  lemma {:induction false} BurstSkewed(key: Client, now: int, n: nat, rest: seq<Request>, skew: nat)
    requires SkewedFrom(rest, now, skew)
    ensures SkewedFrom(Burst(key, now, n) + rest, now, skew)
  {
    if n > 0 {
      BurstSkewed(key, now, n - 1, rest, skew);
      assert (Burst(key, now, n) + rest)[1..] == Burst(key, now, n - 1) + rest;
    } else {
      assert Burst(key, now, n) + rest == rest;
    }
  }

  /** Answers after a burst at one instant within the bucket's window: neither limiter sweeps, both
      count. */
  lemma {:induction false} PastBurst(lim: Limits, key: Client, bucket: Bucket, last: int, now: int, n: nat, rest: seq<Request>)
    requires !Elapsed(lim, bucket.windowStart, now) && !Elapsed(lim, last, now)
    ensures var rs, m, m' := Burst(key, now, n) + rest, map[key := bucket], map[key := bucket.(count := bucket.count + n)];
      && Decisions(lim, m, last, rs)[n..] == Decisions(lim, m', last, rest)
      && Plain(lim, m, rs)[n..] == Plain(lim, m', rest)
    decreases n
  {
    hide Swept;
    var rs, m := Burst(key, now, n) + rest, map[key := bucket];
    if n == 0 {
      assert rs == rest;
    } else {
      var more := bucket.(count := bucket.count + 1);
      var next, tail := map[key := more], Burst(key, now, n - 1) + rest;
      assert rs[0] == Request(key, now) && rs[1..] == tail;
      assert m[key := Hit(lim, m, rs[0])] == next;
      PastBurst(lim, key, more, last, now, n - 1, rest);
      assert Decisions(lim, m, last, rs)[1..] == Decisions(lim, next, last, tail);
      assert Plain(lim, m, rs)[1..] == Plain(lim, next, tail);
      assert Decisions(lim, m, last, rs)[1..][n - 1..] == Decisions(lim, m, last, rs)[n..];
      assert Plain(lim, m, rs)[1..][n - 1..] == Plain(lim, m, rs)[n..];
    }
  }

  /** The first request of a burst opens the bucket. */
  lemma FirstOfBurst(lim: Limits, key: Client, now: int, tail: seq<Request>)
    requires Usable(lim)
    ensures var rs, m := [Request(key, now)] + tail, map[key := Bucket(now, 1)];
      && Decisions(lim, map[], now, rs)[1..] == Decisions(lim, m, now, tail)
      && Plain(lim, map[], rs)[1..] == Plain(lim, m, tail)
  {
    var rs := [Request(key, now)] + tail;
    var none: Buckets := map[];
    assert rs[1..] == tail && none[key := Bucket(now, 1)] == map[key := Bucket(now, 1)];
  }

  /** A full bucket, a request of somebody else that sweeps it, and then one stamped before that. */
  function LateArrival(lim: Limits, c: Client, d: Client, start: int): seq<Request> {
    Burst(c, start, lim.max) + [Request(d, start + lim.window), Request(c, start + lim.window - 1)]
  }

  lemma LateArrivalDiffers(lim: Limits, c: Client, d: Client, start: int)
    requires Usable(lim) && c != d
    ensures SkewedFrom(LateArrival(lim, c, d, start), start, 1)
    ensures var rs := LateArrival(lim, c, d, start);
      Decisions(lim, map[], start, rs)[lim.max + 1] && !Plain(lim, map[], rs)[lim.max + 1]
  {
    hide Swept, Decisions, Plain;
    var w := lim.window;
    var rest := [Request(d, start + w), Request(c, start + w - 1)];
    var rs := LateArrival(lim, c, d, start);
    LateTail(lim, c, d, start);
    BurstSkewed(c, start, lim.max, rest, 1);
    var tail := Burst(c, start, lim.max - 1) + rest;
    assert rs == [Request(c, start)] + tail;
    FirstOfBurst(lim, c, start, tail);
    PastBurst(lim, c, Bucket(start, 1), start, start, lim.max - 1, rest);
    var ds, ps := Decisions(lim, map[], start, rs), Plain(lim, map[], rs);
    assert ds[lim.max + 1] == ds[1..][lim.max - 1..][1];
    assert ps[lim.max + 1] == ps[1..][lim.max - 1..][1];
  }

  lemma LateTail(lim: Limits, c: Client, d: Client, start: int)
    requires Usable(lim) && c != d
    ensures var rest := [Request(d, start + lim.window), Request(c, start + lim.window - 1)];
      var m := map[c := Bucket(start, lim.max)];
      && SkewedFrom(rest, start, 1)
      && Decisions(lim, m, start, rest)[1] && !Plain(lim, m, rest)[1]
  {
    var w := lim.window;
    var rest := [Request(d, start + w), Request(c, start + w - 1)];
    assert rest[1..] == [rest[1]] && [rest[1]][1..] == [];
    var m := map[c := Bucket(start, lim.max)];
    assert Found(lim, m, start, start + w) == map[];
    var none: Buckets := map[];
    assert none[d := Bucket(start + w, 1)] == map[d := Bucket(start + w, 1)];
    assert Decisions(lim, m, start, rest)[1..] == Decisions(lim, map[d := Bucket(start + w, 1)], start + w, [rest[1]]);
    assert Plain(lim, m, rest)[1..] == Plain(lim, m[d := Bucket(start + w, 1)], [rest[1]]);
  }

  /** For every limit: the sweep is invisible exactly when the clock never runs back. One
      nanosecond is enough to show it. */
  lemma SweepHiddenExactly(lim: Limits, start: int, skew: nat, c: Client, d: Client)
    requires Usable(lim) && c != d
    ensures SweepHidden(lim, start, skew) <==> skew == 0
  {
    hide Decisions, Plain, LateArrival;
    if skew == 0 {
      forall rs | SkewedFrom(rs, start, skew)
        ensures Decisions(lim, map[], start, rs) == Plain(lim, map[], rs)
      {
        NoSkewIsOrdered(rs, start);
        SweepIsInvisible(lim, start, rs);
      }
    } else {
      var rs := LateArrival(lim, c, d, start);
      LateArrivalDiffers(lim, c, d, start);
      MoreSkew(rs, start, 1, skew);
    }
  }

  lemma {:induction false} MoreSkew(rs: seq<Request>, latest: int, less: nat, more: nat)
    requires SkewedFrom(rs, latest, less) && less <= more
    ensures SkewedFrom(rs, latest, more)
  {
    if rs != [] {
      MoreSkew(rs[1..], if rs[0].now > latest then rs[0].now else latest, less, more);
    }
  }

  // ---------------------------------------------------------------- what the limit promises

  /** The bound on admissions holds for all requests with this skew. */
  ghost predicate WindowHeld(lim: Limits, start: int, skew: nat) {
    forall rs, key, t :: SkewedFrom(rs, start, skew) ==> Admitted(lim, rs, Decisions(lim, map[], start, rs), key, t) <= Most(lim)
  }

  /** Every client is answered as if it were alone. */
  ghost predicate Isolated(lim: Limits, start: int, skew: nat) {
    forall rs, key :: SkewedFrom(rs, start, skew) ==>
      Answers(rs, Decisions(lim, map[], start, rs), key) == Decisions(lim, map[], start, OfClient(rs, key))
  }

  /** A refused client made max requests less than a window ago. */
  ghost predicate Earned(lim: Limits, start: int, skew: nat) {
    forall rs: seq<Request>, i :: SkewedFrom(rs, start, skew) && 0 <= i < |rs| && !Decisions(lim, map[], start, rs)[i] ==>
      Made(rs[..i], rs[i].key, rs[i].now - lim.window) >= lim.max
  }

  /** A burst in the window that fits in the bucket is let through whole by the swept limiter. */
  lemma {:induction false} BurstServed(lim: Limits, m: Buckets, key: Client, last: int, now: int, n: nat, rest: seq<Request>, t: int)
    requires key in m && !Elapsed(lim, m[key].windowStart, now) && !Elapsed(lim, last, now)
    requires m[key].count + n <= lim.max && t <= now < t + lim.window
    ensures
      var rs, m' := Burst(key, now, n) + rest, m[key := m[key].(count := m[key].count + n)];
      Admitted(lim, rs, Decisions(lim, m, last, rs), key, t)
      == n + Admitted(lim, rest, Decisions(lim, m', last, rest), key, t)
    decreases n
  {
    hide Decisions, Admitted;
    var rs := Burst(key, now, n) + rest;
    if n == 0 {
      assert rs == rest && m[key := m[key].(count := m[key].count + 0)] == m;
    } else {
      var next := m[key := m[key].(count := m[key].count + 1)];
      var tail := Burst(key, now, n - 1) + rest;
      assert rs == [Request(key, now)] + tail;
      ServeOne(lim, m, last, Request(key, now), tail, key, t);
      assert Hit(lim, m, Request(key, now)) == next[key];
      BurstServed(lim, next, key, last, now, n - 1, rest, t);
      assert next[key := next[key].(count := next[key].count + (n - 1))] == m[key := m[key].(count := m[key].count + n)];
    }
  }

  /** One request of the swept limiter. */
  lemma ServeOne(lim: Limits, m: Buckets, last: int, r: Request, tail: seq<Request>, key: Client, t: int)
    ensures var rs, f := [r] + tail, Found(lim, m, last, r.now);
      Admitted(lim, rs, Decisions(lim, m, last, rs), key, t)
      == (if Within(lim, r, key, t) && Admits(lim, f, r) then 1 else 0)
         + Admitted(lim, tail, Decisions(lim, f[r.key := Hit(lim, f, r)], if Elapsed(lim, last, r.now) then r.now else last, tail), key, t)
  {
    var rs := [r] + tail;
    assert rs[1..] == tail;
  }

  /** A full bucket at `start`, a sweep by somebody else a window later, and another full bucket stamped
      just before that. */
  function TwoBuckets(lim: Limits, c: Client, d: Client, start: int): seq<Request>
    requires lim.max > 0
  {
    [Request(c, start)] + (Burst(c, start, lim.max - 1)
    + ([Request(d, start + lim.window)] + ([Request(c, start + lim.window - 1)] + (Burst(c, start + lim.window - 1, lim.max - 1) + []))))
  }

  /** In one window it gets 2·max requests through. */
  lemma TwoBucketsPass(lim: Limits, c: Client, d: Client, start: int)
    requires Usable(lim) && c != d
    ensures SkewedFrom(TwoBuckets(lim, c, d, start), start, 1)
    ensures Admitted(lim, TwoBuckets(lim, c, d, start), Decisions(lim, map[], start, TwoBuckets(lim, c, d, start)), c, start) == 2 * lim.max
  {
    hide Decisions, Admitted, Swept;
    var w, max := lim.window, lim.max;
    var back := start + w - 1;
    var last := Burst(c, back, max - 1) + [];
    var third := [Request(c, back)] + last;
    var second := [Request(d, start + w)] + third;
    var first := Burst(c, start, max - 1) + second;
    TwoBucketsSkewed(lim, c, d, start);

    var one: Buckets := map[c := Bucket(start, 1)];
    var none: Buckets := map[];
    assert none[c := Bucket(start, 1)] == one;
    ServeOne(lim, none, start, Request(c, start), first, c, start);
    BurstServed(lim, one, c, start, start, max - 1, second, start);
    var full: Buckets := map[c := Bucket(start, max)];
    assert one[c := one[c].(count := one[c].count + (max - 1))] == full;
    ServeOne(lim, full, start, Request(d, start + w), third, c, start);
    SweptClean(lim, c, start);
    var other: Buckets := map[d := Bucket(start + w, 1)];
    assert none[d := Bucket(start + w, 1)] == other;
    ServeOne(lim, other, start + w, Request(c, back), last, c, start);
    var both := other[c := Bucket(back, 1)];
    BurstServed(lim, both, c, start + w, back, max - 1, [], start);
    NoneServed(lim, both[c := both[c].(count := both[c].count + (max - 1))], start + w, c, start);
  }

  lemma SweptClean(lim: Limits, c: Client, start: int)
    requires Usable(lim)
    ensures Found(lim, map[c := Bucket(start, lim.max)], start, start + lim.window) == map[]
  {
  }

  lemma NoneServed(lim: Limits, m: Buckets, last: int, key: Client, t: int)
    ensures Admitted(lim, [], Decisions(lim, m, last, []), key, t) == 0
  {
  }

  lemma TwoBucketsSkewed(lim: Limits, c: Client, d: Client, start: int)
    requires Usable(lim)
    ensures SkewedFrom(TwoBuckets(lim, c, d, start), start, 1)
  {
    var w := lim.window;
    var back := start + w - 1;
    var last := Burst(c, back, lim.max - 1) + [];
    var third := [Request(c, back)] + last;
    var second := [Request(d, start + w)] + third;
    var first := Burst(c, start, lim.max - 1) + second;
    BurstBehind(c, back, lim.max - 1);
    assert third[1..] == last && second[1..] == third;
    BurstSkewed(c, start, lim.max - 1, second, 1);
    assert TwoBuckets(lim, c, d, start)[1..] == first;
  }

  /** A burst one nanosecond behind the latest request. */
  lemma {:induction false} BurstBehind(key: Client, now: int, n: nat)
    ensures SkewedFrom(Burst(key, now, n) + [], now + 1, 1)
    decreases n
  {
    if n > 0 {
      BurstBehind(key, now, n - 1);
      assert (Burst(key, now, n) + [])[1..] == Burst(key, now, n - 1) + [];
    }
  }

  /** For every limit: the bound on admissions holds exactly when the clock never runs back. */
  lemma WindowHeldExactly(lim: Limits, start: int, skew: nat, c: Client, d: Client)
    requires Usable(lim) && c != d
    ensures WindowHeld(lim, start, skew) <==> skew == 0
  {
    hide Decisions, Admitted, TwoBuckets, SkewedFrom;
    if skew == 0 {
      forall rs, key, t | SkewedFrom(rs, start, skew)
        ensures Admitted(lim, rs, Decisions(lim, map[], start, rs), key, t) <= Most(lim)
      {
        NoSkewIsOrdered(rs, start);
        WindowIsBounded(lim, start, rs, key, t);
      }
    } else {
      TwoBucketsPass(lim, c, d, start);
      MoreSkew(TwoBuckets(lim, c, d, start), start, 1, skew);
    }
  }

  lemma {:induction false} OfClientJoined(rs: seq<Request>, more: seq<Request>, key: Client)
    ensures OfClient(rs + more, key) == OfClient(rs, key) + OfClient(more, key)
  {
    if rs == [] {
      assert rs + more == more;
    } else {
      assert (rs + more)[1..] == rs[1..] + more;
      OfClientJoined(rs[1..], more, key);
    }
  }

  lemma {:induction false} BurstIsOwn(key: Client, now: int, n: nat)
    ensures OfClient(Burst(key, now, n), key) == Burst(key, now, n)
  {
    if n > 0 {
      assert Burst(key, now, n)[1..] == Burst(key, now, n - 1);
      BurstIsOwn(key, now, n - 1);
    }
  }

  /** Where a client's answer stands among all answers. */
  lemma {:induction false} AnswersAt(rs: seq<Request>, ds: seq<bool>, key: Client, i: nat)
    requires |rs| == |ds| && i < |rs| && rs[i].key == key
    ensures |OfClient(rs[..i], key)| < |Answers(rs, ds, key)|
    ensures Answers(rs, ds, key)[|OfClient(rs[..i], key)|] == ds[i]
  {
    if i > 0 {
      AnswersAt(rs[1..], ds[1..], key, i - 1);
      assert rs[..i][1..] == rs[1..][..i - 1];
    }
  }

  /** The late arrival, alone: its bucket is still there, and it is refused. */
  lemma LateAlone(lim: Limits, c: Client, d: Client, start: int)
    requires Usable(lim) && c != d
    ensures var rs := OfClient(LateArrival(lim, c, d, start), c);
      |rs| == lim.max + 1 && !Decisions(lim, map[], start, rs)[lim.max]
      && OfClient(LateArrival(lim, c, d, start)[..lim.max + 1], c) == Burst(c, start, lim.max)
  {
    hide Swept, Decisions, Plain;
    var w := lim.window;
    var late := Request(c, start + w - 1);
    var burst := Burst(c, start, lim.max);
    LateArrivalOwn(lim, c, d, start);
    var tail := Burst(c, start, lim.max - 1) + [late];
    assert burst + [late] == [Request(c, start)] + tail;
    FirstOfBurst(lim, c, start, tail);
    PastBurst(lim, c, Bucket(start, 1), start, start, lim.max - 1, [late]);
    LateRefused(lim, Bucket(start, lim.max), start, late);
    var ds := Decisions(lim, map[], start, burst + [late]);
    assert ds[lim.max] == ds[1..][lim.max - 1..][0];
  }

  lemma LateArrivalOwn(lim: Limits, c: Client, d: Client, start: int)
    requires c != d
    ensures var late := Request(c, start + lim.window - 1);
      && OfClient(LateArrival(lim, c, d, start), c) == Burst(c, start, lim.max) + [late]
      && OfClient(LateArrival(lim, c, d, start)[..lim.max + 1], c) == Burst(c, start, lim.max)
  {
    var burst, other, late := Burst(c, start, lim.max), Request(d, start + lim.window), Request(c, start + lim.window - 1);
    BurstIsOwn(c, start, lim.max);
    OfClientJoined(burst, [other, late], c);
    assert [other, late][1..] == [late] && [late][1..] == [] && [other][1..] == [];
    assert OfClient([late], c) == [late];
    assert OfClient([other, late], c) == OfClient([other, late][1..], c);
    assert OfClient([other], c) == [];
    OfClientJoined(burst, [other], c);
    assert LateArrival(lim, c, d, start)[..lim.max + 1] == burst + [other];
  }

  /** A request within the window of a full bucket is refused. */
  lemma LateRefused(lim: Limits, bucket: Bucket, last: int, r: Request)
    requires bucket.count >= lim.max && !Elapsed(lim, bucket.windowStart, r.now) && !Elapsed(lim, last, r.now)
    ensures !Decisions(lim, map[r.key := bucket], last, [r])[0]
  {
  }

  /** For every limit: clients are independent exactly when the clock never runs back. */
  lemma IsolatedExactly(lim: Limits, start: int, skew: nat, c: Client, d: Client)
    requires Usable(lim) && c != d
    ensures Isolated(lim, start, skew) <==> skew == 0
  {
    hide Decisions, Plain, LateArrival, SkewedFrom, OfClient, Answers;
    if skew == 0 {
      forall rs, key | SkewedFrom(rs, start, skew)
        ensures Answers(rs, Decisions(lim, map[], start, rs), key) == Decisions(lim, map[], start, OfClient(rs, key))
      {
        NoSkewIsOrdered(rs, start);
        ClientsAreIndependent(lim, start, rs, key);
      }
    } else {
      var rs := LateArrival(lim, c, d, start);
      LateArrivalDiffers(lim, c, d, start);
      MoreSkew(rs, start, 1, skew);
      LateAlone(lim, c, d, start);
      LateArrivalEnds(lim, c, d, start);
      AnswersAt(rs, Decisions(lim, map[], start, rs), c, lim.max + 1);
    }
  }

  lemma LateArrivalEnds(lim: Limits, c: Client, d: Client, start: int)
    ensures |LateArrival(lim, c, d, start)| == lim.max + 2 && LateArrival(lim, c, d, start)[lim.max + 1].key == c
  {
  }

  // ---------------------------------------------------------------- refusals

  function Opening(m: Buckets, key: Client, after: int): nat {
    if key in m && m[key].windowStart > after then 1 else 0
  }

  /** Whatever the stamps are, a refused client opened its bucket less than a window ago. */
  lemma {:induction false} RefusalNeedsOpening(lim: Limits, m: Buckets, last: int, rs: seq<Request>, i: nat)
    requires i < |rs| && lim.max > 0 && !Decisions(lim, m, last, rs)[i]
    ensures Opening(m, rs[i].key, rs[i].now - lim.window) + Made(rs[..i], rs[i].key, rs[i].now - lim.window) >= 1
    decreases |rs|
  {
    if i > 0 {
      var f := Found(lim, m, last, rs[0].now);
      RefusalNeedsOpening(lim, f[rs[0].key := Hit(lim, f, rs[0])], if Elapsed(lim, last, rs[0].now) then rs[0].now else last, rs[1..], i - 1);
      assert rs[..i][1..] == rs[1..][..i - 1];
    }
  }

  /** A bucket filled by requests that are stamped before it was opened, and a refusal for which
      only the opening one counts. */
  function EarlyFill(lim: Limits, c: Client, start: int): seq<Request>
    requires lim.max > 0
  {
    [Request(c, start)] + (Burst(c, start - 1, lim.max - 1) + [Request(c, start + lim.window - 1)])
  }

  lemma EarlyFillRefused(lim: Limits, c: Client, start: int)
    requires Usable(lim)
    ensures var rs := EarlyFill(lim, c, start);
      && |rs| == lim.max + 1 && SkewedFrom(rs, start, 1)
      && rs[lim.max] == Request(c, start + lim.window - 1) && !Decisions(lim, map[], start, rs)[lim.max]
      && Made(rs[..lim.max], c, start - 1) == 1
  {
    hide Swept, Decisions, Plain;
    var late := Request(c, start + lim.window - 1);
    var burst := Burst(c, start - 1, lim.max - 1);
    var rs, tail := EarlyFill(lim, c, start), Burst(c, start - 1, lim.max - 1) + [late];
    assert rs[1..] == tail && [late][1..] == [];
    BurstBehindThen(c, start - 1, lim.max - 1, late);
    FirstOfBurst(lim, c, start, tail);
    PastBurst(lim, c, Bucket(start, 1), start, start - 1, lim.max - 1, [late]);
    LateRefused(lim, Bucket(start, lim.max), start, late);
    var ds := Decisions(lim, map[], start, rs);
    assert ds[lim.max] == ds[1..][lim.max - 1..][0];
    assert rs[..lim.max] == [Request(c, start)] + burst && rs[..lim.max][1..] == burst;
    EarlyUncounted(c, start - 1, lim.max - 1);
  }

  lemma {:induction false} BurstBehindThen(key: Client, now: int, n: nat, late: Request)
    requires late.now >= now
    ensures SkewedFrom(Burst(key, now, n) + [late], now + 1, 1)
    decreases n
  {
    var rs := Burst(key, now, n) + [late];
    if n > 0 {
      BurstBehindThen(key, now, n - 1, late);
      assert rs[1..] == Burst(key, now, n - 1) + [late];
    } else {
      assert rs == [late] && rs[1..] == [];
    }
  }

  lemma {:induction false} EarlyUncounted(key: Client, now: int, n: nat)
    ensures Made(Burst(key, now, n), key, now) == 0
  {
    if n > 0 {
      assert Burst(key, now, n)[1..] == Burst(key, now, n - 1);
      EarlyUncounted(key, now, n - 1);
    }
  }

  /** For every limit: refusals are earned exactly when the clock never runs back or one request is
      all that is allowed. */
  lemma EarnedExactly(lim: Limits, start: int, skew: nat, c: Client)
    requires Usable(lim)
    ensures Earned(lim, start, skew) <==> skew == 0 || lim.max == 1
  {
    hide Decisions, SkewedFrom, EarlyFill, Made;
    if skew == 0 {
      forall rs: seq<Request>, i: nat | SkewedFrom(rs, start, skew) && i < |rs| && !Decisions(lim, map[], start, rs)[i]
        ensures Made(rs[..i], rs[i].key, rs[i].now - lim.window) >= lim.max
      {
        NoSkewIsOrdered(rs, start);
        RefusedOnlyWhenBusy(lim, start, rs, i);
      }
    } else if lim.max == 1 {
      forall rs: seq<Request>, i: nat | SkewedFrom(rs, start, skew) && i < |rs| && !Decisions(lim, map[], start, rs)[i]
        ensures Made(rs[..i], rs[i].key, rs[i].now - lim.window) >= lim.max
      {
        RefusalNeedsOpening(lim, map[], start, rs, i);
      }
    } else {
      EarlyFillRefused(lim, c, start);
      MoreSkew(EarlyFill(lim, c, start), start, 1, skew);
    }
  }
}
