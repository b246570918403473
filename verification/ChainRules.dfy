/** The history rules of chaincode/finix/main.go that reject a commit. Instants are nanoseconds
    since Go's zero time, so IsZero is `== 0`. */
module ChainRules {
  import opened EventChain

  const INITIATED := "transaction_initiated"
  const OVERRIDE := "transaction_override"
  const BLOCKED := "transaction_blocked"

  const VALID_CATEGORIES: set<string> :=
    {"transaction", "payment", "consent", "kyc", "goal", "security", "audit", "blockchain_record"}

  datatype Rule = CoolingOff | ConsentRevocation | DoubleSpend

  // ---------------------------------------------------------------- cooling off

  ghost predicate MovesMoney(e: Event) {
    e.action == INITIATED || e.action == OVERRIDE
  }

  /** The rule's finding: some blocked event of the user is inside the window. */
  ghost predicate Cooling(history: seq<Event>, user: string, now: int, window: int) {
    exists i :: 0 <= i < |history| && history[i].userID == user && history[i].action == BLOCKED && now - history[i].timestamp < window
  }

  method CoolingOffRule(e: Event, history: seq<Event>, window: int) returns (passed: bool)
    ensures passed <==> !(MovesMoney(e) && Cooling(history, e.userID, e.timestamp, window))
  {
    if e.action != INITIATED && e.action != OVERRIDE {
      return true;
    }
    for i := 0 to |history|
      invariant !Cooling(history[..i], e.userID, e.timestamp, window)
    {
      var prev := history[i];
      if prev.userID != e.userID || prev.action != BLOCKED {
        continue;
      }
      if e.timestamp - prev.timestamp < window {
        return false;
      }
    }
    assert history[..|history|] == history;
    return true;
  }

  /** coolingOffState: the remaining window after the latest blocked event. */
  method CoolingOffState(events: seq<Event>, now: int, window: int) returns (active: bool, remaining: int)
    ensures active <==> exists i :: 0 <= i < |events| && events[i].action == BLOCKED && events[i].timestamp > 0 && now - events[i].timestamp < window
    ensures !active ==> remaining == 0
    ensures active ==> remaining > 0 && exists i :: 0 <= i < |events| && events[i].action == BLOCKED && remaining == events[i].timestamp + window - now
    ensures active ==> forall i :: 0 <= i < |events| && events[i].action == BLOCKED ==> events[i].timestamp + window - now <= remaining
  {
    var latest := 0;
    for i := 0 to |events|
      invariant latest >= 0
      invariant forall j :: 0 <= j < i && events[j].action == BLOCKED ==> events[j].timestamp <= latest
      invariant latest > 0 ==> exists j :: 0 <= j < i && events[j].action == BLOCKED && events[j].timestamp == latest
    {
      if events[i].action != BLOCKED {
        continue;
      }
      if events[i].timestamp > latest {
        latest := events[i].timestamp;
      }
    }
    if latest == 0 {
      return false, 0;
    }
    var end := latest + window;
    if now < end {
      return true, end - now;
    }
    return false, 0;
  }

  /** VerifyCoolingOff scans only the transaction category; this is its answer. */
  ghost predicate ReportsCooling(history: seq<Event>, now: int, window: int) {
    exists i :: 0 <= i < |history| && history[i].category == "transaction" && history[i].action == BLOCKED
                && history[i].timestamp > 0 && now - history[i].timestamp < window
  }

  /** A blocked event that the rule sees and the report does not. */
  ghost predicate Overlooked(e: Event) {
    e.action == BLOCKED && (e.category != "transaction" || e.timestamp <= 0)
  }

  /** The report and the rule agree at every instant exactly when all blocked events sit in the
      transaction category (and after the zero time), as far as an overlooked event would count:
      there is another one in plain sight that is at least as late. */
  lemma ReportAgreesWithRule(history: seq<Event>, user: string, window: int)
    requires forall i :: 0 <= i < |history| ==> history[i].userID == user
    ensures (forall now :: ReportsCooling(history, now, window) <==> Cooling(history, user, now, window))
        <==> (forall i :: 0 <= i < |history| && Overlooked(history[i]) ==>
                exists j :: 0 <= j < |history| && history[j].action == BLOCKED && !Overlooked(history[j])
                            && history[j].timestamp >= history[i].timestamp)
  {
    if forall now :: ReportsCooling(history, now, window) <==> Cooling(history, user, now, window) {
      forall i | 0 <= i < |history| && Overlooked(history[i])
        ensures exists j :: 0 <= j < |history| && history[j].action == BLOCKED && !Overlooked(history[j])
                            && history[j].timestamp >= history[i].timestamp
      {
        var now := history[i].timestamp + window - 1;
        assert Cooling(history, user, now, window);
        assert ReportsCooling(history, now, window);
      }
    }
  }

  // ---------------------------------------------------------------- consent

  ghost predicate ReadsData(e: Event) {
    || e.category == "account_aggregator" || e.category == "data_export"
    || e.action == "account_aggregator_sync" || e.action == "data_exported"
  }

  /** Of the categories that can be recorded the rule names none: it acts by action name alone. */
  lemma ReadsDataByAction(e: Event)
    requires e.category in VALID_CATEGORIES
    ensures ReadsData(e) <==> e.action == "account_aggregator_sync" || e.action == "data_exported"
  {
    hide VALID_CATEGORIES;
    UnlistedCategories();
  }

  lemma UnlistedCategories()
    ensures "account_aggregator" !in VALID_CATEGORIES && "data_export" !in VALID_CATEGORIES
  {
    assert |"account_aggregator"| == 18 && "data_export"[0] == 'd';
    assert forall c :: c in VALID_CATEGORIES ==> |c| != 18 && |c| > 0 && c[0] != 'd';
  }

  ghost predicate Revokes(e: Event) {
    e.action == "consent_revoked"
  }

  ghost predicate Grants(e: Event) {
    e.action == "consent_granted" || e.action == "consent_updated"
  }

  /** In ledger order, the last consent event dated before `at` is a revocation. */
  ghost predicate ConsentGone(history: seq<Event>, user: string, at: int) {
    exists i :: 0 <= i < |history| && history[i].userID == user && Revokes(history[i]) && history[i].timestamp < at
      && forall j :: i < j < |history| ==> !(history[j].userID == user && Grants(history[j]) && history[j].timestamp < at)
  }

  method ConsentRevocationRule(e: Event, history: seq<Event>) returns (passed: bool)
    ensures passed <==> !(ReadsData(e) && ConsentGone(history, e.userID, e.timestamp))
  {
    if e.category != "account_aggregator" && e.category != "data_export" &&
       e.action != "account_aggregator_sync" && e.action != "data_exported" {
      return true;
    }
    var revoked := false;
    for i := 0 to |history|
      invariant revoked <==> ConsentGone(history[..i], e.userID, e.timestamp)
    {
      var prev := history[i];
      ConsentStep(history, i, e.userID, e.timestamp);
      if prev.userID != e.userID {
        continue;
      }
      if prev.action == "consent_revoked" {
        if prev.timestamp < e.timestamp {
          revoked := true;
        }
      } else if prev.action == "consent_granted" || prev.action == "consent_updated" {
        if prev.timestamp < e.timestamp {
          revoked := false;
        }
      }
    }
    assert history[..|history|] == history;
    return !revoked;
  }

  lemma ConsentStep(history: seq<Event>, i: nat, user: string, at: int)
    requires i < |history|
    ensures var e := history[i];
      ConsentGone(history[..i + 1], user, at) <==>
        if e.userID == user && Revokes(e) && e.timestamp < at then true
        else ConsentGone(history[..i], user, at) && !(e.userID == user && Grants(e) && e.timestamp < at)
  {
    var before, after := history[..i], history[..i + 1];
    assert forall k :: 0 <= k < i ==> before[k] == after[k];
    assert after[i] == history[i];
    assert !(Revokes(history[i]) && Grants(history[i])) by {
      assert "consent_revoked"[8] == 'r' && "consent_granted"[8] == 'g' && "consent_updated"[8] == 'u';
    }
  }

  /** The user's consent events dated before an instant, in ledger order. */
  function ConsentEvents(history: seq<Event>, user: string, at: int): seq<Event> {
    if history == [] then []
    else
      var e := history[|history| - 1];
      ConsentEvents(history[..|history| - 1], user, at)
      + if e.userID == user && e.timestamp < at && e.action in {"consent_revoked", "consent_granted", "consent_updated"} then [e] else []
  }

  /** Consent is gone exactly when the last of them is a revocation. */
  lemma {:induction false} ConsentGoneMeans(history: seq<Event>, user: string, at: int)
    ensures var consents := ConsentEvents(history, user, at);
      ConsentGone(history, user, at) <==> consents != [] && consents[|consents| - 1].action == "consent_revoked"
  {
    hide ConsentGone;
    if history == [] {
      NoConsent(user, at);
    } else {
      var n := |history| - 1;
      ConsentGoneMeans(history[..n], user, at);
      ConsentStep(history, n, user, at);
      assert history[..n + 1] == history;
      assert "consent_revoked"[8] == 'r' && "consent_granted"[8] == 'g' && "consent_updated"[8] == 'u';
    }
  }

  lemma NoConsent(user: string, at: int)
    ensures !ConsentGone([], user, at)
  {
  }

  // ---------------------------------------------------------------- double spend

  ghost predicate Replays(history: seq<Event>, e: Event) {
    exists i :: 0 <= i < |history| && history[i].userID == e.userID && history[i].action == INITIATED
                && history[i].payloadHash == e.payloadHash && history[i].timestamp != e.timestamp
  }

  method DoubleSpendRule(e: Event, history: seq<Event>) returns (passed: bool)
    ensures passed <==> !(e.action == INITIATED && Replays(history, e))
  {
    if e.action != INITIATED {
      return true;
    }
    for i := 0 to |history|
      invariant !Replays(history[..i], e)
    {
      var prev := history[i];
      if prev.userID != e.userID || prev.action != INITIATED {
        continue;
      }
      if prev.payloadHash == e.payloadHash && prev.timestamp != e.timestamp {
        return false;
      }
    }
    assert history[..|history|] == history;
    return true;
  }

  // ---------------------------------------------------------------- all rules

  ghost predicate Passes(history: seq<Event>, e: Event, window: int) {
    && !(MovesMoney(e) && Cooling(history, e.userID, e.timestamp, window))
    && !(ReadsData(e) && ConsentGone(history, e.userID, e.timestamp))
    && !(e.action == INITIATED && Replays(history, e))
  }

  datatype Verdict = Accepted | Rejected(rule: Rule)

  method EnforceRules(e: Event, history: seq<Event>, window: int) returns (v: Verdict)
    ensures v == Accepted <==> Passes(history, e, window)
    ensures v == Rejected(CoolingOff) <==> MovesMoney(e) && Cooling(history, e.userID, e.timestamp, window)
    ensures v == Rejected(DoubleSpend) ==> e.action == INITIATED && Replays(history, e)
    ensures v == Rejected(ConsentRevocation) ==> ReadsData(e) && ConsentGone(history, e.userID, e.timestamp)
  {
    var passed := CoolingOffRule(e, history, window);
    if !passed {
      return Rejected(CoolingOff);
    }
    passed := ConsentRevocationRule(e, history);
    if !passed {
      return Rejected(ConsentRevocation);
    }
    passed := DoubleSpendRule(e, history);
    if !passed {
      return Rejected(DoubleSpend);
    }
    return Accepted;
  }

  // ---------------------------------------------------------------- what the rules keep

  ghost predicate SamePayment(d: Event, e: Event) {
    d.action == INITIATED && e.action == INITIATED && d.payloadHash == e.payloadHash
  }

  /** Over one user's log: money moves at least `window` after every earlier block, ... */
  ghost predicate KeepsDistance(log: seq<Event>, window: int) {
    forall i, j :: 0 <= i < j < |log| && log[i].action == BLOCKED && MovesMoney(log[j]) ==>
      log[j].timestamp - log[i].timestamp >= window
  }

  /** ... no payload is initiated at two instants, ... */
  ghost predicate SpendsOnce(log: seq<Event>) {
    forall i, j :: 0 <= i < |log| && 0 <= j < |log| && SamePayment(log[i], log[j]) ==>
      log[i].timestamp == log[j].timestamp
  }

  /** ... and no data is read while consent is gone. */
  ghost predicate ReadsWithConsent(log: seq<Event>) {
    forall j :: 0 <= j < |log| && ReadsData(log[j]) ==> !ConsentGone(log[..j], log[j].userID, log[j].timestamp)
  }

  ghost predicate Lawful(log: seq<Event>, window: int) {
    KeepsDistance(log, window) && SpendsOnce(log) && ReadsWithConsent(log)
  }

  ghost predicate AllOf(log: seq<Event>, user: string) {
    forall i :: 0 <= i < |log| ==> log[i].userID == user
  }

  lemma CommitKeepsDistance(log: seq<Event>, e: Event, window: int, floor: int)
    requires KeepsDistance(log, floor) && floor <= window && AllOf(log, e.userID)
    requires !(MovesMoney(e) && Cooling(log, e.userID, e.timestamp, window))
    ensures KeepsDistance(log + [e], floor)
  {
    hide MovesMoney;
  }

  lemma CommitSpendsOnce(log: seq<Event>, e: Event)
    requires SpendsOnce(log) && AllOf(log, e.userID)
    requires !(e.action == INITIATED && Replays(log, e))
    ensures SpendsOnce(log + [e])
  {
  }

  lemma CommitReadsWithConsent(log: seq<Event>, e: Event)
    requires ReadsWithConsent(log) && !(ReadsData(e) && ConsentGone(log, e.userID, e.timestamp))
    ensures ReadsWithConsent(log + [e])
  {
    hide ReadsData, ConsentGone;
    var next := log + [e];
    forall j | 0 <= j < |next| && ReadsData(next[j])
      ensures !ConsentGone(next[..j], next[j].userID, next[j].timestamp)
    {
      assert next[..j] == log[..j];
      assert log[..|log|] == log;
    }
  }

  /** Committing an event that passes keeps the log lawful, for any window at most the one
      that was enforced. */
  lemma CommitKeepsLawful(log: seq<Event>, e: Event, window: int, floor: int)
    requires Lawful(log, floor) && floor <= window && Passes(log, e, window) && AllOf(log, e.userID)
    ensures Lawful(log + [e], floor)
  {
    hide KeepsDistance, SpendsOnce, ReadsWithConsent, MovesMoney, ReadsData, Cooling, ConsentGone, Replays, AllOf;
    CommitKeepsDistance(log, e, window, floor);
    CommitSpendsOnce(log, e);
    CommitReadsWithConsent(log, e);
  }

  lemma LawfulForLess(log: seq<Event>, window: int, floor: int)
    requires Lawful(log, window) && floor <= window
    ensures Lawful(log, floor)
  {
  }
}
