/** The per-user hash chain of chaincode/finix/main.go. SHA-256, the timestamp format and the
    JSON validator are library functions and stay parameters; that the hash has no collision is
    only ever assumed of the finitely many strings that the chains at hand hash. */
module EventChain {

  datatype Env = Env(sha: string -> string, stamp: int -> string, json: string -> bool)

  /** Digests are 64 characters; neither they nor timestamps contain the separator. */
  ghost predicate Shaped(env: Env) {
    && (forall x :: |env.sha(x)| == 64 && '|' !in env.sha(x))
    && (forall t :: '|' !in env.stamp(t))
  }

  ghost predicate NoCollision(env: Env, hashed: set<string>) {
    forall x, y :: x in hashed && y in hashed && env.sha(x) == env.sha(y) ==> x == y
  }

  datatype Event = Event(
    userID: string, action: string, category: string, payloadHash: string,
    prevHash: string, hash: string, timestamp: int, seqNo: nat, payload: string)

  // ---------------------------------------------------------------- the hash of an event

  function DigitChar(d: nat): char
    requires d < 10
  {
    ['0', '1', '2', '3', '4', '5', '6', '7', '8', '9'][d]
  }

  /** strconv.FormatUint(n, 10). */
  function Digits(n: nat): string {
    if n < 10 then [DigitChar(n)] else Digits(n / 10) + [DigitChar(n % 10)]
  }

  /** The separated fields, joined in the order that eventHash joins them. */
  function Tail(env: Env, e: Event): string {
    e.category + "|" + (Digits(e.seqNo) + "|" + env.stamp(e.timestamp))
  }

  function Preimage(env: Env, e: Event): string {
    e.prevHash + "|" + (e.payloadHash + "|" + (e.userID + "|" + (e.action + "|" + Tail(env, e))))
  }

  function EventHash(env: Env, e: Event): string {
    env.sha(Preimage(env, e))
  }

  /** strings.Join. */
  function Join(parts: seq<string>, separator: string): string {
    if parts == [] then "" else if |parts| == 1 then parts[0] else parts[0] + separator + Join(parts[1..], separator)
  }

  /** What is hashed: the seven fields in the order that a verifier has to join them. */
  lemma PreimageIsJoined(env: Env, e: Event)
    ensures Preimage(env, e) ==
      Join([e.prevHash, e.payloadHash, e.userID, e.action, e.category, Digits(e.seqNo), env.stamp(e.timestamp)], "|")
  {
    var parts := [e.prevHash, e.payloadHash, e.userID, e.action, e.category, Digits(e.seqNo), env.stamp(e.timestamp)];
    JoinNext(parts, "|");
    JoinNext(parts[1..], "|");
    JoinNext(parts[2..], "|");
    JoinNext(parts[3..], "|");
    JoinNext(parts[4..], "|");
    JoinNext(parts[5..], "|");
    assert parts[6..] == [parts[6]];
    JoinOne(parts[6], "|");
    var tail := Tail(env, e);
    assert Join(parts[4..], "|") == e.category + "|" + (Digits(e.seqNo) + "|" + env.stamp(e.timestamp)) == tail;
    assert Join(parts[3..], "|") == e.action + "|" + tail;
    assert Join(parts[2..], "|") == e.userID + "|" + (e.action + "|" + tail);
    assert Join(parts[1..], "|") == e.payloadHash + "|" + (e.userID + "|" + (e.action + "|" + tail));
  }

  lemma JoinNext(parts: seq<string>, separator: string)
    requires |parts| > 1
    ensures Join(parts, separator) == parts[0] + separator + Join(parts[1..], separator)
  {
  }

  lemma JoinOne(part: string, separator: string)
    ensures Join([part], separator) == part
  {
  }

  /** The number that decimal digits stand for. */
  function Decimal(s: string): int {
    if s == "" then 0 else 10 * Decimal(s[..|s| - 1]) + (s[|s| - 1] as int - '0' as int)
  }

  /** Printing a number and reading it back gives the number. */
  lemma {:induction false} DigitsRoundTrip(n: nat)
    ensures Decimal(Digits(n)) == n
  {
    var s := Digits(n);
    assert s[|s| - 1] as int - '0' as int == n % 10;
    if n < 10 {
      assert s[..|s| - 1] == "";
    } else {
      assert s[..|s| - 1] == Digits(n / 10);
      DigitsRoundTrip(n / 10);
    }
  }

  // ---------------------------------------------------------------- the chain

  function Head(events: seq<Event>): string {
    if events == [] then "" else events[|events| - 1].hash
  }

  /** The checks of GetProof, all passed. */
  ghost predicate Intact(env: Env, events: seq<Event>)
    decreases |events|
  {
    events == [] ||
    (var rest, e := events[..|events| - 1], events[|events| - 1];
     Intact(env, rest) && e.prevHash == Head(rest) && EventHash(env, e) == e.hash)
  }

  function Hashes(events: seq<Event>): seq<string> {
    seq(|events|, i requires 0 <= i < |events| => events[i].hash)
  }

  ghost function Hashed(env: Env, events: seq<Event>): set<string> {
    set e | e in events :: Preimage(env, e)
  }

  // ---------------------------------------------------------------- cutting strings at the separator

  lemma CutFirst(x: string, r: string, y: string, s: string)
    requires '|' !in x && '|' !in y && x + "|" + r == y + "|" + s
    ensures x == y && r == s
  {
    var whole := x + "|" + r;
    assert whole[|x|] == '|' && (y + "|" + s)[|y|] == '|';
    assert x == whole[..|x|] && y == whole[..|y|];
    assert r == whole[|x| + 1..] && s == whole[|y| + 1..];
  }

  lemma CutLast(r: string, x: string, s: string, y: string)
    requires '|' !in x && '|' !in y && r + "|" + x == s + "|" + y
    ensures x == y && r == s
  {
    var whole := r + "|" + x;
    assert whole[|r|] == '|' && (s + "|" + y)[|s|] == '|';
    assert r == whole[..|r|] && s == whole[..|s|];
    assert x == whole[|r| + 1..] && y == whole[|s| + 1..];
  }

  lemma {:induction false} DigitsPlain(n: nat)
    ensures '|' !in Digits(n) && |Digits(n)| > 0
  {
    if n >= 10 {
      DigitsPlain(n / 10);
    }
  }

  lemma DigitCharInjective(d: nat, e: nat)
    requires d < 10 && e < 10 && DigitChar(d) == DigitChar(e)
    ensures d == e
  {
  }

  lemma {:induction false} DigitsInjective(m: nat, n: nat)
    requires Digits(m) == Digits(n)
    ensures m == n
  {
    hide DigitChar;
    var x, y := Digits(m), Digits(n);
    assert x[|x| - 1] == DigitChar(m % 10) && y[|y| - 1] == DigitChar(n % 10);
    DigitCharInjective(m % 10, n % 10);
    DigitsPlain(m / 10);
    DigitsPlain(n / 10);
    if m >= 10 && n >= 10 {
      assert Digits(m / 10) == x[..|x| - 1] && Digits(n / 10) == y[..|y| - 1];
      DigitsInjective(m / 10, n / 10);
    }
  }

  // ---------------------------------------------------------------- what a head hash pins down

  lemma {:induction false} HeadShape(env: Env, events: seq<Event>)
    requires Shaped(env) && Intact(env, events)
    ensures '|' !in Head(events)
    ensures events == [] <==> Head(events) == ""
  {
    if events != [] {
      var e := events[|events| - 1];
      assert |env.sha(Preimage(env, e))| == 64;
    }
  }

  /** Two chains that both pass the checks of GetProof and end in the same hash have the same
      length and the same hashes throughout. */
  lemma {:induction false} HeadPinsChain(env: Env, a: seq<Event>, b: seq<Event>)
    requires Shaped(env) && Intact(env, a) && Intact(env, b) && Head(a) == Head(b)
    requires NoCollision(env, Hashed(env, a) + Hashed(env, b))
    ensures Hashes(a) == Hashes(b)
    decreases |a|
  {
    HeadShape(env, a);
    HeadShape(env, b);
    if a != [] {
      StepBack(env, a, b);
      HeadPinsChain(env, a[..|a| - 1], b[..|b| - 1]);
      SnocHashes(a);
      SnocHashes(b);
    }
  }

  function Rest(env: Env, e: Event): string {
    e.payloadHash + "|" + (e.userID + "|" + (e.action + "|" + Tail(env, e)))
  }

  lemma LastPreimages(env: Env, a: seq<Event>, b: seq<Event>)
    requires a != [] && b != [] && Intact(env, a) && Intact(env, b) && Head(a) == Head(b)
    requires NoCollision(env, Hashed(env, a) + Hashed(env, b))
    ensures var d, e := a[|a| - 1], b[|b| - 1];
      Preimage(env, d) == Preimage(env, e)
      && d.prevHash + "|" + Rest(env, d) == e.prevHash + "|" + Rest(env, e)
  {
    var d, e := a[|a| - 1], b[|b| - 1];
    var hashed := Hashed(env, a) + Hashed(env, b);
    assert d in a && e in b;
    assert Preimage(env, d) in hashed && Preimage(env, e) in hashed;
  }

  lemma StepBack(env: Env, a: seq<Event>, b: seq<Event>)
    requires Shaped(env) && a != [] && b != [] && Intact(env, a) && Intact(env, b) && Head(a) == Head(b)
    requires NoCollision(env, Hashed(env, a) + Hashed(env, b))
    ensures var a', b' := a[..|a| - 1], b[..|b| - 1];
      && Intact(env, a') && Intact(env, b') && Head(a') == Head(b')
      && NoCollision(env, Hashed(env, a') + Hashed(env, b'))
    ensures Rest(env, a[|a| - 1]) == Rest(env, b[|b| - 1])
  {
    var a', b' := a[..|a| - 1], b[..|b| - 1];
    LastPreimages(env, a, b);
    HeadShape(env, a');
    HeadShape(env, b');
    var d, e := a[|a| - 1], b[|b| - 1];
    CutFirst(d.prevHash, Rest(env, d), e.prevHash, Rest(env, e));
    assert Hashed(env, a') <= Hashed(env, a) && Hashed(env, b') <= Hashed(env, b);
  }

  lemma SnocHashes(a: seq<Event>)
    requires a != []
    ensures Hashes(a) == Hashes(a[..|a| - 1]) + [Head(a)]
  {
  }

  /** The hashed content of an event, but for the user. */
  ghost predicate SameContent(env: Env, d: Event, e: Event) {
    && d.payloadHash == e.payloadHash && d.action == e.action && d.category == e.category
    && d.seqNo == e.seqNo && env.stamp(d.timestamp) == env.stamp(e.timestamp)
  }

  /** Events of one user whose payload hash and category are free of the separator. */
  ghost predicate OfUser(events: seq<Event>, user: string) {
    forall e :: e in events ==> e.userID == user && '|' !in e.payloadHash && '|' !in e.category
  }

  /** For one user, equal preimages mean equal content, even when action names or the user id
      contain the separator. */
  lemma PreimagePinsContent(env: Env, d: Event, e: Event)
    requires Shaped(env) && d.userID == e.userID && Rest(env, d) == Rest(env, e)
    requires '|' !in d.payloadHash && '|' !in d.category && '|' !in e.payloadHash && '|' !in e.category
    ensures SameContent(env, d, e)
  {
    DigitsPlain(d.seqNo);
    DigitsPlain(e.seqNo);
    var u := d.userID + "|";
    var x, y := d.action + "|" + Tail(env, d), e.action + "|" + Tail(env, e);
    CutFirst(d.payloadHash, u + x, e.payloadHash, u + y);
    assert x == (u + x)[|u|..] && y == (u + y)[|u|..];
    var dn, en := Digits(d.seqNo), Digits(e.seqNo);
    var dt, et := env.stamp(d.timestamp), env.stamp(e.timestamp);
    var dc, ec := d.action + "|" + d.category, e.action + "|" + e.category;
    assert x == (dc + "|" + dn) + "|" + dt && y == (ec + "|" + en) + "|" + et;
    CutLast(dc + "|" + dn, dt, ec + "|" + en, et);
    CutLast(dc, dn, ec, en);
    CutLast(d.action, d.category, e.action, e.category);
    DigitsInjective(d.seqNo, e.seqNo);
  }

  /** So the head hash of one user's chain pins every hashed field of every event. */
  lemma {:induction false} HeadPinsContent(env: Env, a: seq<Event>, b: seq<Event>, user: string)
    requires Shaped(env) && Intact(env, a) && Intact(env, b) && Head(a) == Head(b)
    requires NoCollision(env, Hashed(env, a) + Hashed(env, b))
    requires OfUser(a, user) && OfUser(b, user)
    ensures |a| == |b| && forall i :: 0 <= i < |a| ==> SameContent(env, a[i], b[i])
    decreases |a|
  {
    hide SameContent, Rest, Hashed, NoCollision, OfUser, Intact, Shaped;
    HeadShape(env, a);
    HeadShape(env, b);
    if a != [] {
      StepBack(env, a, b);
      LastContent(env, a, b, user);
      HeadPinsContent(env, a[..|a| - 1], b[..|b| - 1], user);
    }
  }

  lemma LastContent(env: Env, a: seq<Event>, b: seq<Event>, user: string)
    requires Shaped(env) && a != [] && b != [] && Rest(env, a[|a| - 1]) == Rest(env, b[|b| - 1])
    requires OfUser(a, user) && OfUser(b, user)
    ensures SameContent(env, a[|a| - 1], b[|b| - 1])
    ensures OfUser(a[..|a| - 1], user) && OfUser(b[..|b| - 1], user)
  {
    hide SameContent, Rest;
    assert a[|a| - 1] in a && b[|b| - 1] in b;
    PreimagePinsContent(env, a[|a| - 1], b[|b| - 1]);
  }

  // ---------------------------------------------------------------- whose event it is

  /** As in every committed event: the links, a digest and a known category. */
  ghost predicate Plain(e: Event) {
    '|' !in e.prevHash && '|' !in e.payloadHash && '|' !in e.category
  }

  /** What the preimage says about the user and the action: only this joined string. */
  function Doer(e: Event): string {
    e.userID + "|" + e.action
  }

  /** Equal preimages of plain events: everything agrees, but for where the doer is cut. */
  lemma PreimagePinsDoer(env: Env, d: Event, e: Event)
    requires Shaped(env) && Plain(d) && Plain(e) && Preimage(env, d) == Preimage(env, e)
    ensures Doer(d) == Doer(e)
    ensures d.prevHash == e.prevHash && d.payloadHash == e.payloadHash && d.category == e.category
    ensures d.seqNo == e.seqNo && env.stamp(d.timestamp) == env.stamp(e.timestamp)
  {
    CutFirst(d.prevHash, Rest(env, d), e.prevHash, Rest(env, e));
    var x, y := d.action + "|" + Tail(env, d), e.action + "|" + Tail(env, e);
    CutFirst(d.payloadHash, d.userID + "|" + x, e.payloadHash, e.userID + "|" + y);
    DigitsPlain(d.seqNo);
    DigitsPlain(e.seqNo);
    var dn, en := Digits(d.seqNo), Digits(e.seqNo);
    var dt, et := env.stamp(d.timestamp), env.stamp(e.timestamp);
    var dc, ec := Doer(d) + "|" + d.category, Doer(e) + "|" + e.category;
    assert d.userID + "|" + x == (dc + "|" + dn) + "|" + dt;
    assert e.userID + "|" + y == (ec + "|" + en) + "|" + et;
    CutLast(dc + "|" + dn, dt, ec + "|" + en, et);
    CutLast(dc, dn, ec, en);
    CutLast(Doer(d), d.category, Doer(e), e.category);
    DigitsInjective(d.seqNo, e.seqNo);
  }

  /** A string with one separator is cut in one way. */
  lemma OnlyCut(x: string, y: string, v: string, w: string)
    requires '|' !in x && '|' !in y && x + "|" + y == v + "|" + w
    ensures x == v && y == w
  {
    var whole := x + "|" + y;
    assert whole[|x|] == '|' && (v + "|" + w)[|v|] == '|';
    assert forall i :: |x| < i < |whole| ==> whole[i] == y[i - |x| - 1];
    assert |v| == |x|;
    assert x == whole[..|x|] && v == whole[..|v|];
    assert y == whole[|x| + 1..] && w == whole[|v| + 1..];
  }

  /** Cutting the doer elsewhere gives another event with the same preimage. */
  lemma Recut(env: Env, d: Event, user: string, action: string)
    requires user + "|" + action == Doer(d)
    ensures Preimage(env, d.(userID := user, action := action)) == Preimage(env, d)
  {
    var t := Tail(env, d);
    assert user + "|" + (action + "|" + t) == (user + "|" + action) + "|" + t;
    assert d.userID + "|" + (d.action + "|" + t) == Doer(d) + "|" + t;
  }

  /** The preimage of an event belongs to one user and one content exactly when neither its user
      id nor its action contains the separator, which is not escaped. */
  lemma UserPinnedExactly(env: Env, d: Event)
    requires Shaped(env) && Plain(d)
    ensures (forall e :: Plain(e) && Preimage(env, e) == Preimage(env, d) ==> e.userID == d.userID && SameContent(env, d, e))
        <==> '|' !in d.userID && '|' !in d.action
  {
    hide Preimage, Shaped;
    if '|' in d.userID {
      var p :| 0 <= p < |d.userID| && d.userID[p] == '|';
      var user, action := d.userID[..p], d.userID[p + 1..] + "|" + d.action;
      assert d.userID == user + "|" + d.userID[p + 1..];
      assert user + "|" + action == Doer(d);
      Recut(env, d, user, action);
      assert Plain(d.(userID := user, action := action));
    } else if '|' in d.action {
      var p :| 0 <= p < |d.action| && d.action[p] == '|';
      var user, action := d.userID + "|" + d.action[..p], d.action[p + 1..];
      assert d.action == d.action[..p] + "|" + action;
      assert user + "|" + action == Doer(d);
      Recut(env, d, user, action);
      assert Plain(d.(userID := user, action := action));
    } else {
      forall e | Plain(e) && Preimage(env, e) == Preimage(env, d)
        ensures e.userID == d.userID && SameContent(env, d, e)
      {
        PreimagePinsDoer(env, d, e);
        OnlyCut(d.userID, d.action, e.userID, e.action);
      }
    }
  }
}
