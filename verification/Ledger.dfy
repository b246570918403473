/** The event ledger of chaincode/finix/main.go: events under (user, category, seq), one head
    record per user, and commits that the rules may reject. */
module Ledger {
  import opened EventChain
  import opened MerkleTree
  import opened ChainRules
  import opened Text
  import opened Wrappers

  datatype Key = Key(user: string, category: string, seqNo: nat)

  datatype ChainHead = ChainHead(seqNo: nat, hash: string)

  datatype Error = UserIDRequired | ActionRequired | UnknownCategory | InvalidPayload | RuleViolation(rule: Rule)

  datatype Proof = Proof(userID: string, merkleRoot: string, eventCount: nat, headHash: string, intact: bool)

  const DEFAULT_WINDOW := 6 * 3_600_000_000_000

  function KeyOf(e: Event): Key {
    Key(e.userID, e.category, e.seqNo)
  }

  // ---------------------------------------------------------------- sorting a scan

  ghost predicate Ascending(s: seq<Event>) {
    forall i, j :: 0 <= i < j < |s| ==> s[i].seqNo < s[j].seqNo
  }

  ghost predicate DistinctSeqs(s: seq<Event>) {
    forall i, j :: 0 <= i < j < |s| ==> s[i].seqNo != s[j].seqNo
  }

  /** The stable sort of the standard library, as an insertion sort. */
  function Insert(s: seq<Event>, e: Event): (t: seq<Event>)
    ensures |t| == |s| + 1
    ensures forall x :: x in t <==> x in s || x == e
  {
    if s == [] || s[|s| - 1].seqNo <= e.seqNo then s + [e]
    else
      var t := Insert(s[..|s| - 1], e);
      assert s == s[..|s| - 1] + [s[|s| - 1]];
      t + [s[|s| - 1]]
  }

  function SortBySeq(s: seq<Event>): (t: seq<Event>)
    ensures |t| == |s|
    ensures forall x :: x in t <==> x in s
  {
    if s == [] then []
    else
      assert s == s[..|s| - 1] + [s[|s| - 1]];
      Insert(SortBySeq(s[..|s| - 1]), s[|s| - 1])
  }

  lemma {:induction false} InsertAscending(s: seq<Event>, e: Event)
    requires Ascending(s) && forall x :: x in s ==> x.seqNo != e.seqNo
    ensures Ascending(Insert(s, e))
  {
    if s != [] && s[|s| - 1].seqNo > e.seqNo {
      var init, last := s[..|s| - 1], s[|s| - 1];
      InsertAscending(init, e);
      var t := Insert(init, e);
      forall i | 0 <= i < |t|
        ensures t[i].seqNo < last.seqNo
      {
        assert t[i] in t;
      }
    } else {
      assert forall i :: 0 <= i < |s| ==> s[i] in s;
    }
  }

  lemma {:induction false} SortAscending(s: seq<Event>)
    requires DistinctSeqs(s)
    ensures Ascending(SortBySeq(s))
  {
    if s != [] {
      var init, last := s[..|s| - 1], s[|s| - 1];
      SortAscending(init);
      assert forall x :: x in init ==> exists i :: 0 <= i < |init| && s[i] == x;
      InsertAscending(SortBySeq(init), last);
    }
  }

  lemma {:induction false} AscendingUnique(a: seq<Event>, b: seq<Event>)
    requires Ascending(a) && Ascending(b)
    requires forall x :: x in a <==> x in b
    ensures a == b
    decreases |a|
  {
    assert b != [] ==> b[0] in b;
    if a != [] {
      var x := a[|a| - 1];
      assert x in a && x in b;
      var y := b[|b| - 1];
      assert y in b && y in a;
      assert x == y;
      var a', b' := a[..|a| - 1], b[..|b| - 1];
      InitMembers(a);
      InitMembers(b);
      forall e
        ensures e in a' <==> e in b'
      {
        assert e in a' <==> e in a && e != x;
        assert e in b' <==> e in b && e != x;
      }
      AscendingUnique(a', b');
      assert a == a' + [x] && b == b' + [x];
    }
  }

  lemma InitMembers(a: seq<Event>)
    requires a != [] && Ascending(a)
    ensures forall x :: x in a[..|a| - 1] <==> x in a && x != a[|a| - 1]
  {
    assert a == a[..|a| - 1] + [a[|a| - 1]];
  }

  /** A user's events of one category. */
  function InCategory(log: seq<Event>, category: string): (out: seq<Event>)
    ensures forall x :: x in out <==> x in log && x.category == category
  {
    if log == [] then []
    else
      var rest, e := InCategory(log[..|log| - 1], category), log[|log| - 1];
      assert log == log[..|log| - 1] + [e];
      if e.category == category then rest + [e] else rest
  }

  lemma {:induction false} InCategoryAscending(log: seq<Event>, category: string)
    requires Ascending(log)
    ensures Ascending(InCategory(log, category))
  {
    if log != [] {
      var init := log[..|log| - 1];
      InCategoryAscending(init, category);
      var rest := InCategory(init, category);
      forall i | 0 <= i < |rest|
        ensures rest[i].seqNo < log[|log| - 1].seqNo
      {
        assert rest[i] in init;
      }
    }
  }

  predicate Matches(wanted: Option<string>, category: string) {
    wanted == None || wanted == Some(category)
  }

  function Wanted(log: seq<Event>, category: Option<string>): seq<Event> {
    match category
    case None => log
    case Some(c) => InCategory(log, c)
  }

  // ---------------------------------------------------------------- the state

  /** One user's committed events: an intact chain with sequence numbers 1, 2, ..., lawful. */
  ghost predicate LogOk(env: Env, log: seq<Event>, user: string, floor: int) {
    && Intact(env, log)
    && Lawful(log, floor)
    && forall i :: 0 <= i < |log| ==>
         && log[i].userID == user && log[i].seqNo == i + 1 && log[i].category in VALID_CATEGORIES
         && log[i].payloadHash == env.sha(log[i].payload)
  }

  /** The head record is the last event's number and hash. */
  ghost predicate HeadOk(heads: map<string, ChainHead>, user: string, log: seq<Event>) {
    if log == [] then user !in heads
    else user in heads && heads[user] == ChainHead(|log|, Head(log))
  }

  /** The store holds exactly the events of the logs, each under its own key. */
  ghost predicate StoreOk(events: map<Key, Event>, logs: map<string, seq<Event>>) {
    && (forall k :: k in events ==>
          && k.user in logs && 1 <= k.seqNo <= |logs[k.user]|
          && events[k] == logs[k.user][k.seqNo - 1] && KeyOf(events[k]) == k)
    && (forall u, i :: u in logs && 0 <= i < |logs[u]| ==> KeyOf(logs[u][i]) in events)
  }

  function LogIn(logs: map<string, seq<Event>>, user: string): seq<Event> {
    if user in logs then logs[user] else []
  }

  lemma LogEntry(env: Env, log: seq<Event>, user: string, floor: int, i: nat)
    requires LogOk(env, log, user, floor) && i < |log|
    ensures log[i].userID == user && log[i].seqNo == i + 1
  {
  }

  lemma LogAscending(env: Env, log: seq<Event>, user: string, floor: int)
    requires LogOk(env, log, user, floor)
    ensures Ascending(log)
  {
  }

  lemma StoreExtends(events: map<Key, Event>, logs: map<string, seq<Event>>, e: Event)
    requires StoreOk(events, logs) && e.seqNo == |LogIn(logs, e.userID)| + 1
    ensures StoreOk(events[KeyOf(e) := e], logs[e.userID := LogIn(logs, e.userID) + [e]])
  {
    var log := LogIn(logs, e.userID) + [e];
    var logs' := logs[e.userID := log];
    var events' := events[KeyOf(e) := e];
    forall u, i | u in logs' && 0 <= i < |logs'[u]|
      ensures KeyOf(logs'[u][i]) in events'
    {
      if u != e.userID {
        assert KeyOf(logs[u][i]) in events;
      } else if i < |log| - 1 {
        assert KeyOf(logs[u][i]) in events;
      }
    }
  }

  lemma CommitKeepsLogOk(env: Env, log: seq<Event>, e: Event, window: int, floor: int)
    requires LogOk(env, log, e.userID, floor) && floor <= window && Passes(log, e, window)
    requires e.seqNo == |log| + 1 && e.category in VALID_CATEGORIES && e.payloadHash == env.sha(e.payload)
    requires e.prevHash == Head(log) && e.hash == EventHash(env, e)
    ensures LogOk(env, log + [e], e.userID, floor)
  {
    hide Lawful, Passes, EventHash;
    CommitKeepsLawful(log, e, window, floor);
    assert (log + [e])[..|log|] == log;
  }

  class Ledger {
    var events: map<Key, Event>
    var heads: map<string, ChainHead>
    var coolingOverride: Option<int>
    ghost var Logs: map<string, seq<Event>>
    ghost var MinWindow: int  // the shortest window that was ever in force

    ghost predicate Valid(env: Env)
      reads this
    {
      && (forall u :: u in Logs ==> LogOk(env, Logs[u], u, MinWindow))
      && (forall u :: HeadOk(heads, u, LogIn(Logs, u)))
      && StoreOk(events, Logs)
      && MinWindow <= Window()
    }

    ghost function Log(user: string): seq<Event>
      reads this
    {
      LogIn(Logs, user)
    }

    /** resolveCoolingOffWindow. */
    function Window(): int
      reads this
    {
      if coolingOverride.Some? && coolingOverride.value > 0 then coolingOverride.value else DEFAULT_WINDOW
    }

    constructor (ghost env: Env)
      ensures Valid(env) && Logs == map[] && MinWindow == Window() == 21_600_000_000_000
    {
      events, heads, coolingOverride := map[], map[], None;
      Logs, MinWindow := map[], DEFAULT_WINDOW;
    }

    /** SetCoolingOffWindow, for a duration that parsed. */
    method SetCoolingOffWindow(ghost env: Env, duration: int) returns (ok: bool)
      requires Valid(env)
      modifies this
      ensures Valid(env) && Logs == old(Logs)
      ensures ok <==> duration > 0
      ensures Window() == if ok then duration else old(Window())
      ensures MinWindow == if ok && duration < old(MinWindow) then duration else old(MinWindow)
    {
      if duration <= 0 {
        return false;
      }
      if duration < MinWindow {
        forall u | u in Logs
          ensures LogOk(env, Logs[u], u, duration)
        {
          LawfulForLess(Logs[u], MinWindow, duration);
        }
        MinWindow := duration;
      }
      coolingOverride := Some(duration);
      return true;
    }

    // -------------------------------------------------------------- range scans

    lemma ScanKey(env: Env, k: Key)
      requires Valid(env) && k in events
      ensures events[k] in Log(k.user) && KeyOf(events[k]) == k
    {
      hide LogOk, HeadOk;
    }

    lemma LogStored(env: Env, user: string, e: Event)
      requires Valid(env) && e in Log(user)
      ensures KeyOf(e) in events && events[KeyOf(e)] == e && e.userID == user
    {
      hide LogOk, HeadOk;
      var i :| 0 <= i < |Logs[user]| && Logs[user][i] == e;
      LogEntry(env, Logs[user], user, MinWindow, i);
      assert KeyOf(Logs[user][i]) in events;
    }

    lemma SameSeqSameKey(env: Env, k: Key, l: Key)
      requires Valid(env) && k in events && l in events && k.user == l.user && k.seqNo == l.seqNo
      ensures k == l
    {
      hide LogOk, HeadOk;
    }

    /** queryByPartial: the range scan yields the matching events in key order, which says
        nothing about their numbers across categories; then they are sorted by number. */
    method QueryByPartial(ghost env: Env, user: string, category: Option<string>) returns (out: seq<Event>)
      requires Valid(env)
      ensures out == Wanted(Log(user), category)
    {
      hide LogOk, HeadOk, StoreOk, SortBySeq, Log;
      var todo := set k | k in events && k.user == user && Matches(category, k.category);
      var scan: seq<Event> := [];
      while todo != {}
        invariant forall k :: k in todo ==> k in events && k.user == user && Matches(category, k.category)
        invariant forall e :: e in scan ==> KeyOf(e) in events && events[KeyOf(e)] == e && e.userID == user
        invariant forall e :: e in scan ==> KeyOf(e) !in todo && Matches(category, e.category)
        invariant forall k :: k in events && k.user == user && Matches(category, k.category) ==>
                    k in todo || events[k] in scan
        invariant DistinctSeqs(scan)
      {
        var k :| k in todo;
        todo := todo - {k};
        ScanKey(env, k);
        forall e | e in scan
          ensures e.seqNo != events[k].seqNo
        {
          if e.seqNo == events[k].seqNo {
            SameSeqSameKey(env, KeyOf(e), k);
          }
        }
        scan := scan + [events[k]];
      }
      SortedScan(env, user, category, scan);
      out := SortBySeq(scan);
    }

    /** Whatever order the scan had, sorting it rebuilds the chain, or its part in one category. */
    lemma SortedScan(env: Env, user: string, category: Option<string>, scan: seq<Event>)
      requires Valid(env) && DistinctSeqs(scan)
      requires forall e :: e in scan ==> KeyOf(e) in events && events[KeyOf(e)] == e && e.userID == user && Matches(category, e.category)
      requires forall k :: k in events && k.user == user && Matches(category, k.category) ==> events[k] in scan
      ensures SortBySeq(scan) == Wanted(Log(user), category)
    {
      hide LogOk, HeadOk, StoreOk, Log;
      SortAscending(scan);
      UserAscending(env, user);
      if category.Some? {
        InCategoryAscending(Log(user), category.value);
      }
      forall e
        ensures e in SortBySeq(scan) <==> e in Wanted(Log(user), category)
      {
        if e in scan {
          ScanKey(env, KeyOf(e));
        }
        if e in Log(user) {
          LogStored(env, user, e);
        }
      }
      AscendingUnique(SortBySeq(scan), Wanted(Log(user), category));
    }

    lemma UserAscending(env: Env, user: string)
      requires Valid(env)
      ensures Ascending(Log(user))
    {
      if user in Logs {
        LogAscending(env, Logs[user], user, MinWindow);
      }
    }

    // -------------------------------------------------------------- commits

    method ReadHead(ghost env: Env, user: string) returns (head: ChainHead)
      requires Valid(env)
      ensures head == ChainHead(|Log(user)|, Head(Log(user)))
    {
      hide LogOk, StoreOk;
      assert HeadOk(heads, user, LogIn(Logs, user));
      head := if user in heads then heads[user] else ChainHead(0, "");
    }

    /** RecordEvent: `now` is the transaction's own timestamp. */
    method RecordEvent(env: Env, rawCategory: string, rawUser: string, rawAction: string, rawPayload: string, now: int)
      returns (r: Result<Event, Error>)
      requires Valid(env)
      modifies this`events, this`heads, this`Logs
      ensures Valid(env)
      ensures var user, log := Trim(rawUser), old(Log(Trim(rawUser)));
        var request := Request(env, Trim(rawCategory), user, Trim(rawAction), rawPayload);
        var e := NewEvent(env, log, Trim(rawCategory), user, Trim(rawAction), Body(rawPayload), now);
        && (r.Ok? <==> request == None && Passes(log, e, Window()))
        && (r.Ok? ==> r.value == e && Logs == old(Logs)[user := log + [e]])
        && (r.Err? && !r.error.RuleViolation? <==> request.Some?)
        && (r.Err? && !r.error.RuleViolation? ==> request == Some(r.error))
      ensures r.Err? ==> events == old(events) && heads == old(heads) && Logs == old(Logs)
      ensures r == Err(UserIDRequired) <==> Trim(rawUser) == ""
      ensures r == Err(ActionRequired) <==> Trim(rawUser) != "" && Trim(rawAction) == ""
      ensures r == Err(UnknownCategory) <==> Trim(rawUser) != "" && Trim(rawAction) != "" && !Recordable(Trim(rawCategory))
      ensures r == Err(InvalidPayload) <==> Trim(rawUser) != "" && Trim(rawAction) != "" && Recordable(Trim(rawCategory))
                                            && !env.json(if rawPayload == "" then "{}" else rawPayload)
      ensures r.Ok? ==>
        && r.value.userID == Trim(rawUser) && r.value.action == Trim(rawAction) && r.value.category == Trim(rawCategory)
        && r.value.payload == (if rawPayload == "" then "{}" else rawPayload)
        && r.value.payloadHash == env.sha(if rawPayload == "" then "{}" else rawPayload)
        && r.value.timestamp == now
        && Trim(rawUser) in Logs && Logs[Trim(rawUser)] == old(Log(Trim(rawUser))) + [r.value]
      ensures r == Err(RuleViolation(CoolingOff)) ==>
        && Trim(rawAction) in {"transaction_initiated", "transaction_override"}
        && BlockedWithin(old(Log(Trim(rawUser))), now, Window())
      ensures r == Err(RuleViolation(DoubleSpend)) ==>
        && Trim(rawAction) == "transaction_initiated"
        && InitiatedElsewhen(old(Log(Trim(rawUser))), env.sha(if rawPayload == "" then "{}" else rawPayload), now)
      ensures r == Err(RuleViolation(ConsentRevocation)) ==>
        && Trim(rawAction) in {"account_aggregator_sync", "data_exported"}
        && LastConsentRevoked(old(Log(Trim(rawUser))), Trim(rawUser), now)
    {
      hide LastConsentRevoked, ReadsData, ConsentGone, LogOk, StoreOk, HeadOk, Lawful, Passes, EventHash, Trim, Log, VALID_CATEGORIES, Recordable, BlockedWithin, InitiatedElsewhen, Replays, Cooling;
      RecordableMeans(Trim(rawCategory));
      var category, user, action := Trim(rawCategory), Trim(rawUser), Trim(rawAction);
      if user == "" {
        return Err(UserIDRequired);
      }
      if action == "" {
        return Err(ActionRequired);
      }
      if category !in VALID_CATEGORIES {
        return Err(UnknownCategory);
      }
      var payload := if rawPayload == "" then "{}" else rawPayload;
      if !env.json(payload) {
        return Err(InvalidPayload);
      }
      var head := ReadHead(env, user);
      var e := Event(user, action, category, env.sha(payload), head.hash, "", now, head.seqNo + 1, payload);
      HashIgnoresHash(env, e, env.sha(Preimage(env, e)));
      e := e.(hash := env.sha(Preimage(env, e)));
      var history := QueryByPartial(env, user, None);
      var verdict := EnforceRules(e, history, Window());
      RefusalMeans(e, history, Window());
      if verdict != Accepted {
        return Err(RuleViolation(verdict.rule));
      }
      Commit(env, e);
      return Ok(e);
    }

    /** putEvent and writeHead. */
    method Commit(ghost env: Env, e: Event)
      requires Valid(env) && Passes(Log(e.userID), e, Window())
      requires e.seqNo == |Log(e.userID)| + 1 && e.category in VALID_CATEGORIES && e.payloadHash == env.sha(e.payload)
      requires e.prevHash == Head(Log(e.userID)) && e.hash == EventHash(env, e)
      modifies this`events, this`heads, this`Logs
      ensures Valid(env)
      ensures Logs == old(Logs)[e.userID := old(Log(e.userID)) + [e]]
    {
      hide LogOk, StoreOk, Lawful, Passes, EventHash, Intact;
      EmptyLogOk(env, e.userID, MinWindow);
      CommitKeepsLogOk(env, Log(e.userID), e, Window(), MinWindow);
      StoreExtends(events, Logs, e);
      var u := e.userID;
      events := events[KeyOf(e) := e];
      heads := heads[u := ChainHead(e.seqNo, e.hash)];
      Logs := Logs[u := LogIn(Logs, u) + [e]];
      forall v
        ensures HeadOk(heads, v, LogIn(Logs, v))
      {
        assert old(HeadOk(heads, v, LogIn(Logs, v)));
      }
    }

    // -------------------------------------------------------------- proofs

    /** GetProof. */
    method GetProof(env: Env, user: string) returns (p: Proof)
      requires Valid(env)
      ensures p == Proof(user, RootOf(env, Hashes(Log(user))), |Log(user)|, Head(Log(user)), true)
    {
      hide LogOk, StoreOk, HeadOk, Intact, RootOf, Log;
      LogIntact(env, user);
      var events := QueryByPartial(env, user, None);
      p := CheckChain(env, user, events);
    }

    lemma LogIntact(env: Env, user: string)
      requires Valid(env)
      ensures Intact(env, Log(user))
    {
      if user in Logs {
        assert LogOk(env, Logs[user], user, MinWindow);
      }
    }

    /** VerifyCoolingOff. */
    method VerifyCoolingOff(ghost env: Env, user: string, now: int) returns (active: bool, remaining: int)
      requires Valid(env)
      ensures active <==> ReportsCooling(Log(user), now, Window())
      ensures !active ==> remaining == 0
      ensures active ==>
        && remaining > 0
        && (exists e :: e in InCategory(Log(user), "transaction") && e.action == BLOCKED && remaining == e.timestamp + Window() - now)
        && forall e :: e in InCategory(Log(user), "transaction") && e.action == BLOCKED ==> e.timestamp + Window() - now <= remaining
    {
      var events := QueryByPartial(env, user, Some("transaction"));
      active, remaining := CoolingOffState(events, now, Window());
      ReportFromScan(Log(user), events, now, Window());
    }
  }

  lemma ReportFromScan(log: seq<Event>, scan: seq<Event>, now: int, window: int)
    requires scan == InCategory(log, "transaction")
    ensures ReportsCooling(log, now, window) <==>
      exists i :: 0 <= i < |scan| && scan[i].action == BLOCKED && scan[i].timestamp > 0 && now - scan[i].timestamp < window
  {
    assert forall i :: 0 <= i < |scan| ==> scan[i] in scan;
    assert forall i :: 0 <= i < |log| ==> log[i] in log;
  }

  ghost predicate Recordable(category: string) {
    || category == "transaction" || category == "payment" || category == "consent" || category == "kyc"
    || category == "goal" || category == "security" || category == "audit" || category == "blockchain_record"
  }

  lemma RecordableMeans(category: string)
    ensures Recordable(category) <==> category in VALID_CATEGORIES
  {
  }

  /** Some transaction of the log was blocked less than the window ago. */
  ghost predicate BlockedWithin(log: seq<Event>, now: int, window: int) {
    exists e :: e in log && e.action == "transaction_blocked" && now - e.timestamp < window
  }

  /** The payload was initiated before, at another instant. */
  ghost predicate InitiatedElsewhen(log: seq<Event>, payloadHash: string, now: int) {
    exists e :: e in log && e.action == "transaction_initiated" && e.payloadHash == payloadHash && e.timestamp != now
  }

  /** The last consent event before this instant is a revocation. */
  ghost predicate LastConsentRevoked(log: seq<Event>, user: string, now: int) {
    var consents := ConsentEvents(log, user, now);
    consents != [] && consents[|consents| - 1].action == "consent_revoked"
  }

  lemma RefusalMeans(e: Event, log: seq<Event>, window: int)
    requires e.category in VALID_CATEGORIES
    ensures ReadsData(e) ==> e.action in {"account_aggregator_sync", "data_exported"}
    ensures ConsentGone(log, e.userID, e.timestamp) <==> LastConsentRevoked(log, e.userID, e.timestamp)
    ensures Cooling(log, e.userID, e.timestamp, window) ==> BlockedWithin(log, e.timestamp, window)
    ensures Replays(log, e) ==> InitiatedElsewhen(log, e.payloadHash, e.timestamp)
    ensures MovesMoney(e) <==> e.action in {"transaction_initiated", "transaction_override"}
    ensures INITIATED == "transaction_initiated"
  {
    hide VALID_CATEGORIES, ReadsData, ConsentGone;
    ReadsDataByAction(e);
    ConsentGoneMeans(log, e.userID, e.timestamp);
  }

  /** The input checks of RecordEvent. */
  function Request(env: Env, category: string, user: string, action: string, payload: string): Option<Error> {
    if user == "" then Some(UserIDRequired)
    else if action == "" then Some(ActionRequired)
    else if category !in VALID_CATEGORIES then Some(UnknownCategory)
    else if !env.json(Body(payload)) then Some(InvalidPayload)
    else None
  }

  function Body(payload: string): string {
    if payload == "" then "{}" else payload
  }

  /** The event that is appended to a log. */
  function NewEvent(env: Env, log: seq<Event>, category: string, user: string, action: string, payload: string, now: int): Event {
    var e := Event(user, action, category, env.sha(payload), Head(log), "", now, |log| + 1, payload);
    e.(hash := EventHash(env, e))
  }

  /** A block recorded under another category is committed, holds money back, and is not reported. */
  lemma AuditBlockIsOverlooked(env: Env, user: string, payload: string, at: int, now: int, window: int)
    requires user != "" && env.json(Body(payload)) && now - at < window
    ensures Request(env, "audit", user, BLOCKED, payload) == None
    ensures var e := NewEvent(env, [], "audit", user, BLOCKED, Body(payload), at);
      && Passes([], e, window) && LogOk(env, [e], user, window)
      && Cooling([e], user, now, window) && !ReportsCooling([e], now, window)
  {
    hide LogOk;
    var e := NewEvent(env, [], "audit", user, BLOCKED, Body(payload), at);
    assert BLOCKED[12] == 'b' && INITIATED[12] == 'i' && OVERRIDE[12] == 'o';
    assert BLOCKED[0] == 't' && "account_aggregator_sync"[0] == 'a' && "data_exported"[0] == 'd';
    EmptyLogOk(env, user, window);
    HashIgnoresHash(env, e, "");
    CommitKeepsLogOk(env, [], e, window, window);
    assert [] + [e] == [e];
    assert [e][0] == e && e.category[0] == 'a' && "transaction"[0] == 't';
  }

  /** Two users at the same point of their chains, as at the start, who record the same payload in
      the same category at the same instant get the same event hash exactly when their user ids and
      actions join to the same string. */
  lemma SameHashExactly(env: Env, log: seq<Event>, log2: seq<Event>, category: string, user: string, action: string,
                        user2: string, action2: string, payload: string, now: int)
    requires Shaped(env) && category in VALID_CATEGORIES && |log| == |log2| && Head(log) == Head(log2)
    requires var e := NewEvent(env, log, category, user, action, payload, now);
      var f := NewEvent(env, log2, category, user2, action2, payload, now);
      '|' !in Head(log) && NoCollision(env, {Preimage(env, e), Preimage(env, f)})
    ensures NewEvent(env, log, category, user, action, payload, now).hash
         == NewEvent(env, log2, category, user2, action2, payload, now).hash
        <==> user + "|" + action == user2 + "|" + action2
  {
    hide Preimage, VALID_CATEGORIES;
    var e := NewEvent(env, log, category, user, action, payload, now);
    var f := NewEvent(env, log2, category, user2, action2, payload, now);
    PlainCategory(category);
    var stub := Event(user, action, category, env.sha(payload), Head(log), "", now, |log| + 1, payload);
    var stub2 := stub.(userID := user2, action := action2);
    PreimageIgnoresHash(env, stub, e.hash);
    PreimageIgnoresHash(env, stub2, f.hash);
    if Doer(e) == Doer(f) {
      Recut(env, stub, user2, action2);
    } else if e.hash == f.hash {
      var hashed := {Preimage(env, e), Preimage(env, f)};
      assert Preimage(env, e) in hashed && Preimage(env, f) in hashed;
      PreimagePinsDoer(env, e, f);
    }
  }

  lemma PreimageIgnoresHash(env: Env, e: Event, hash: string)
    ensures Preimage(env, e.(hash := hash)) == Preimage(env, e)
  {
  }

  lemma PlainCategory(category: string)
    requires category in VALID_CATEGORIES
    ensures '|' !in category
  {
  }

  lemma HashIgnoresHash(env: Env, e: Event, hash: string)
    ensures EventHash(env, e.(hash := hash)) == EventHash(env, e) == env.sha(Preimage(env, e))
  {
  }

  lemma EmptyLogOk(env: Env, user: string, floor: int)
    ensures LogOk(env, [], user, floor)
  {
  }

  /** The first n events are the longest intact part, and the proof reports their head and root. */
  ghost predicate StopsAt(env: Env, events: seq<Event>, n: nat, p: Proof) {
    && n <= |events|
    && Intact(env, events[..n]) && (n < |events| ==> !Intact(env, events[..n + 1]))
    && p.headHash == Head(events[..n]) && p.merkleRoot == RootOf(env, Hashes(events[..n]))
  }

  /** The loop of GetProof over any list of events: how far the chain is intact, the hash it
      ends in there, and the Merkle root of that part. */
  method CheckChain(env: Env, user: string, events: seq<Event>) returns (p: Proof)
    ensures p.userID == user && p.eventCount == |events|
    ensures p.intact <==> Intact(env, events)
    ensures p.intact ==> p.headHash == Head(events) && p.merkleRoot == RootOf(env, Hashes(events))
    ensures exists n :: StopsAt(env, events, n, p)
  {
    hide Intact, EventHash, Hashes, Head, RootOf;
    EmptyChain(env);
    var prev := "";
    var hashes: seq<string> := [];
    var intact := true;
    var n := 0;
    while n < |events|
      invariant 0 <= n <= |events| && intact
      invariant Intact(env, events[..n]) && prev == Head(events[..n]) && hashes == Hashes(events[..n])
    {
      var e := events[n];
      IntactStep(env, events, n);
      if e.prevHash != prev || EventHash(env, e) != e.hash {
        intact := false;
        break;
      }
      prev := e.hash;
      hashes := hashes + [e.hash];
      n := n + 1;
    }
    IntactPrefix(env, events, n);
    var root := MerkleRoot(env, hashes);
    p := Proof(user, root, |events|, prev, intact);
    assert StopsAt(env, events, n, p);
  }

  lemma EmptyChain(env: Env)
    ensures Intact(env, []) && Head([]) == "" && Hashes([]) == []
  {
  }

  /** One turn of the loop. */
  lemma IntactStep(env: Env, events: seq<Event>, n: nat)
    requires n < |events|
    ensures Head(events[..n + 1]) == events[n].hash
    ensures Hashes(events[..n + 1]) == Hashes(events[..n]) + [events[n].hash]
    ensures Intact(env, events[..n + 1]) <==>
      Intact(env, events[..n]) && events[n].prevHash == Head(events[..n]) && EventHash(env, events[n]) == events[n].hash
  {
    hide EventHash;
    assert events[..n + 1][..n] == events[..n];
  }

  lemma {:induction false} IntactPrefix(env: Env, events: seq<Event>, n: nat)
    requires n <= |events|
    ensures n == |events| ==> events[..n] == events
    ensures n < |events| && !Intact(env, events[..n + 1]) ==> !Intact(env, events)
    decreases |events|
  {
    if n + 1 < |events| {
      var init := events[..|events| - 1];
      assert init[..n + 1] == events[..n + 1];
      IntactPrefix(env, init, n);
    } else if n < |events| {
      assert events[..n + 1] == events;
    } else {
      assert events[..n] == events;
    }
  }
}
