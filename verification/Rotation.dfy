/** The rotation protocol of security/jwt.go over whole runs. A refresh is not atomic: it looks
    the token up, checks its age, reads the clock, and only then claims the token; a revocation
    reads the clock before it takes the lock. Between these steps other calls run and time
    passes. One action is one critical section or one clock reading. */
module Rotation {
  import opened Tokens
  import opened Wrappers

  const WINDOW := TOKEN_TTL + REFRESH_GRACE

  /** `login` numbers the login a token descends from, `parent` is the token it replaced. */
  datatype Token = Token(iat: int, login: nat, parent: Option<Jti>)

  /** Where an unfinished call stands. */
  datatype Call =
    | Looked(jti: Jti, since: int)                // refresh: not revoked at `since`
    | Admitted(jti: Jti, since: int)              // refresh: young enough
    | Claiming(jti: Jti, since: int, clock: int)  // refresh: clock read for the claim
    | Minting(jti: Jti)                           // refresh: claim won, new token due
    | Revoking(jti: Jti, clock: int)              // revocation: clock read
    | Verifying(jti: Jti, since: int)             // verification: not expired at `since`

  type Pid = int

  /** `first` is history: the instant at which a token was first revoked or claimed. */
  datatype State = State(
    now: int, tokens: map<Jti, Token>, revoked: Revocations, calls: map<Pid, Call>,
    first: map<Jti, int>, logins: nat)

  datatype Action =
    | Tick(seconds: nat)
    | Login(jti: Jti)
    | LookUp(pid: Pid, jti: Jti)
    | CheckAge(pid: Pid)
    | ReadClaimClock(pid: Pid)
    | Claim(pid: Pid)
    | Mint(pid: Pid, jti: Jti)
    | ReadRevokeClock(pid: Pid, jti: Jti)
    | Revoke(pid: Pid)
    | CheckExpiry(pid: Pid, jti: Jti)
    | Accept(pid: Pid)
    | Abandon(pid: Pid)

  const START := State(0, map[], map[], map[], map[], 0)

  predicate Enabled(s: State, a: Action) {
    match a
    case Tick(_) => true
    case Login(jti) => jti.Jti? && jti !in s.tokens
    case LookUp(pid, jti) => pid !in s.calls && jti in s.tokens
    case CheckAge(pid) => pid in s.calls && s.calls[pid].Looked? && s.calls[pid].jti in s.tokens
    case ReadClaimClock(pid) => pid in s.calls && s.calls[pid].Admitted?
    case Claim(pid) => pid in s.calls && s.calls[pid].Claiming?
    case Mint(pid, jti) => pid in s.calls && s.calls[pid].Minting? && s.calls[pid].jti in s.tokens && jti.Jti? && jti !in s.tokens
    case ReadRevokeClock(pid, jti) => pid !in s.calls && jti in s.tokens
    case Revoke(pid) => pid in s.calls && s.calls[pid].Revoking?
    case CheckExpiry(pid, jti) => pid !in s.calls && jti in s.tokens
    case Accept(pid) => pid in s.calls && s.calls[pid].Verifying?
    case Abandon(pid) => pid in s.calls
  }

  /** The claims whose age and expiry the checks look at. */
  function ClaimsOf(jti: Jti, t: Token): Claims {
    Claims("user", "customer", "", t.iat, t.iat + TOKEN_TTL, jti)
  }

  function Noted(s: State, jti: Jti): map<Jti, int> {
    if jti in s.first then s.first else s.first[jti := s.now]
  }

  function Do(s: State, a: Action): State
    requires Enabled(s, a)
  {
    match a
    case Tick(seconds) => s.(now := s.now + seconds)
    case Login(jti) => s.(tokens := s.tokens[jti := Token(s.now, s.logins, None)], logins := s.logins + 1)
    case LookUp(pid, jti) =>
      if jti in s.revoked then s else s.(calls := s.calls[pid := Looked(jti, s.now)])
    case CheckAge(pid) =>
      var c := s.calls[pid];
      if Refreshable(ClaimsOf(c.jti, s.tokens[c.jti]), s.now) then s.(calls := s.calls[pid := Admitted(c.jti, c.since)])
      else s.(calls := s.calls - {pid})
    case ReadClaimClock(pid) =>
      var c := s.calls[pid];
      s.(calls := s.calls[pid := Claiming(c.jti, c.since, s.now)])
    case Claim(pid) =>
      var c := s.calls[pid];
      if c.jti in s.revoked then s.(calls := s.calls - {pid})
      else s.(revoked := Entered(s.revoked, c.jti, c.clock, s.now), first := Noted(s, c.jti), calls := s.calls[pid := Minting(c.jti)])
    case Mint(pid, jti) =>
      var spent := s.calls[pid].jti;
      s.(tokens := s.tokens[jti := Token(s.now, s.tokens[spent].login, Some(spent))], calls := s.calls - {pid})
    case ReadRevokeClock(pid, jti) => s.(calls := s.calls[pid := Revoking(jti, s.now)])
    case Revoke(pid) =>
      var c := s.calls[pid];
      s.(revoked := Entered(s.revoked, c.jti, c.clock, s.now), first := Noted(s, c.jti), calls := s.calls - {pid})
    case CheckExpiry(pid, jti) =>
      if s.now >= s.tokens[jti].iat + TOKEN_TTL then s else s.(calls := s.calls[pid := Verifying(jti, s.now)])
    case Accept(pid) => s.(calls := s.calls - {pid})
    case Abandon(pid) => s.(calls := s.calls - {pid})
  }

  /** How long calls may stall: `lockWait` between reading the clock and holding the lock,
      `stall` between a refresh's revocation check and its claim. */
  datatype Limits = Limits(lockWait: nat, stall: nat)

  predicate OnTime(s: State, a: Action, lim: Limits)
    requires Enabled(s, a)
  {
    match a
    case Claim(pid) => s.now - s.calls[pid].clock <= lim.lockWait && s.now - s.calls[pid].since <= lim.stall
    case Revoke(pid) => s.now - s.calls[pid].clock <= lim.lockWait
    case _ => true
  }

  /** A run of the protocol from state s. */
  ghost predicate Legal(s: State, acts: seq<Action>, lim: Limits)
    decreases |acts|
  {
    acts == [] || (Enabled(s, acts[0]) && OnTime(s, acts[0], lim) && Legal(Do(s, acts[0]), acts[1..], lim))
  }

  function Wins(s: State, a: Action): bool {
    a.Claim? && Enabled(s, a) && s.calls[a.pid].jti !in s.revoked
  }

  // ---------------------------------------------------------------- the invariant

  /** A revoked or claimed token is remembered, or was forgotten when nobody could use it. */
  ghost predicate TokenOk(s: State, j: Jti, lim: Limits) {
    && (j in s.tokens ==> s.tokens[j].iat <= s.now)
    && (j in s.revoked ==> j in s.first)
    && (j in s.first ==>
          && j in s.tokens && s.tokens[j].iat <= s.first[j] <= s.now
          && var until := if j in s.revoked then s.revoked[j] else s.now - 1;
             until >= s.tokens[j].iat + WINDOW && until >= s.first[j] - lim.lockWait + WINDOW)
  }

  ghost predicate TokensOk(s: State, lim: Limits) {
    forall j :: TokenOk(s, j, lim)
  }

  ghost predicate CallOk(s: State, c: Call) {
    && c.jti in s.tokens
    && var iat := s.tokens[c.jti].iat;
    match c
    case Looked(j, since) =>
      iat <= since <= s.now && (j in s.first ==> s.first[j] >= since || since > iat + WINDOW)
    case Admitted(j, since) =>
      iat <= since <= s.now && since < iat + WINDOW && (j in s.first ==> s.first[j] >= since)
    case Claiming(j, since, clock) =>
      iat <= since <= clock <= s.now && since < iat + WINDOW && (j in s.first ==> s.first[j] >= since)
    case Minting(j) => j in s.first
    case Revoking(j, clock) => iat <= clock <= s.now
    case Verifying(j, since) => since < iat + TOKEN_TTL
  }

  ghost predicate CallsOk(s: State) {
    forall p :: p in s.calls ==> CallOk(s, s.calls[p])
  }

  ghost predicate SameLogin(s: State, j: Jti, k: Jti) {
    j in s.tokens && k in s.tokens && s.tokens[j].login == s.tokens[k].login
  }

  predicate IsMinting(s: State, p: Pid) {
    p in s.calls && s.calls[p].Minting?
  }

  /** One login has at most one token that was never revoked or claimed, and none while a
      refresh is about to mint; only one refresh of a login is. */
  ghost predicate OneLine(s: State) {
    && (forall j :: j in s.tokens ==> s.tokens[j].login < s.logins)
    && (forall j, k :: SameLogin(s, j, k) && j !in s.first && k !in s.first ==> j == k)
    && (forall p, k :: IsMinting(s, p) && SameLogin(s, s.calls[p].jti, k) ==> k in s.first)
    && (forall p, q :: IsMinting(s, p) && IsMinting(s, q) && SameLogin(s, s.calls[p].jti, s.calls[q].jti) ==> p == q)
  }

  ghost predicate Inv(s: State, lim: Limits) {
    TokensOk(s, lim) && CallsOk(s) && OneLine(s)
  }

  /** The exact condition under which a refresh is safe. */
  predicate Tight(lim: Limits) {
    lim.stall <= 1 || lim.stall + lim.lockWait <= WINDOW
  }

  lemma StartInv(lim: Limits)
    ensures Inv(START, lim)
  {
  }

  /** The heart of it: a claim wins only for a token that was never revoked or claimed. */
  lemma WinnerIsFresh(s: State, a: Action, lim: Limits)
    requires Inv(s, lim) && Enabled(s, a) && OnTime(s, a, lim) && Tight(lim)
    requires Wins(s, a)
    ensures s.calls[a.pid].jti !in s.first
  {
    assert CallOk(s, s.calls[a.pid]);
    assert TokenOk(s, s.calls[a.pid].jti, lim);
  }

  /** Time, tokens and history only grow, and what history gains is dated now. */
  ghost predicate Later(s: State, s': State) {
    && s.now <= s'.now
    && (forall j :: j in s.tokens ==> j in s'.tokens && s'.tokens[j] == s.tokens[j])
    && (forall j :: j in s.first ==> j in s'.first && s'.first[j] == s.first[j])
    && (forall j :: j in s'.first && j !in s.first ==> s'.first[j] == s.now)
  }

  lemma DoIsLater(s: State, a: Action)
    requires Enabled(s, a)
    ensures Later(s, Do(s, a))
  {
    hide Refreshable, Entered;
  }

  lemma CallStaysOk(s: State, s': State, c: Call)
    requires CallOk(s, c) && Later(s, s')
    ensures CallOk(s', c)
  {
  }

  /** The call that an action leaves behind, if it is a new one. */
  lemma NewCallOk(s: State, a: Action, p: Pid, lim: Limits)
    requires TokensOk(s, lim) && CallsOk(s) && Enabled(s, a)
    requires p in Do(s, a).calls && !(p in s.calls && s.calls[p] == Do(s, a).calls[p])
    ensures CallOk(Do(s, a), Do(s, a).calls[p])
  {
    hide Entered;
    match a
    case LookUp(pid, jti) => assert TokenOk(s, jti, lim);
    case CheckAge(pid) =>
      assert CallOk(s, s.calls[pid]);
      assert Refreshable(ClaimsOf(s.calls[pid].jti, s.tokens[s.calls[pid].jti]), s.now);
    case ReadClaimClock(pid) => assert CallOk(s, s.calls[pid]);
    case Claim(pid) => assert CallOk(s, s.calls[pid]);
    case ReadRevokeClock(pid, jti) => assert TokenOk(s, jti, lim);
    case CheckExpiry(pid, jti) =>
    case _ =>
  }

  lemma CallsStep(s: State, a: Action, lim: Limits)
    requires TokensOk(s, lim) && CallsOk(s) && Enabled(s, a)
    ensures CallsOk(Do(s, a))
  {
    hide Do, CallOk, Later, Enabled;
    DoIsLater(s, a);
    var s' := Do(s, a);
    forall p | p in s'.calls
      ensures CallOk(s', s'.calls[p])
    {
      if p in s.calls && s.calls[p] == s'.calls[p] {
        CallStaysOk(s, s', s.calls[p]);
      } else {
        NewCallOk(s, a, p, lim);
      }
    }
  }

  /** A new entry is dated late enough to outlive every use of its token. */
  lemma EntryOk(s: State, jti: Jti, clock: int, lim: Limits, j: Jti)
    requires TokenOk(s, j, lim) && jti in s.tokens
    requires s.tokens[jti].iat <= clock <= s.now && s.now - clock <= lim.lockWait
    requires s.tokens[jti].iat <= s.now
    ensures TokenOk(s.(revoked := Entered(s.revoked, jti, clock, s.now), first := Noted(s, jti)), j, lim)
  {
  }

  lemma TokensStep(s: State, a: Action, lim: Limits)
    requires TokensOk(s, lim) && CallsOk(s) && Enabled(s, a) && OnTime(s, a, lim)
    ensures TokensOk(Do(s, a), lim)
  {
    hide Entered, Noted, Refreshable;
    forall j
      ensures TokenOk(Do(s, a), j, lim)
    {
      assert TokenOk(s, j, lim);
      match a
      case Claim(pid) =>
        assert CallOk(s, s.calls[pid]);
        EntryOk(s, s.calls[pid].jti, s.calls[pid].clock, lim, j);
      case Revoke(pid) =>
        assert CallOk(s, s.calls[pid]);
        EntryOk(s, s.calls[pid].jti, s.calls[pid].clock, lim, j);
      case _ =>
    }
  }

  lemma LineFrame(s: State, s': State)
    requires OneLine(s) && s'.tokens == s.tokens && s'.logins == s.logins && s.first.Keys <= s'.first.Keys
    requires forall p :: IsMinting(s', p) ==> IsMinting(s, p) && s.calls[p] == s'.calls[p]
    ensures OneLine(s')
  {
    assert forall j, k :: SameLogin(s', j, k) <==> SameLogin(s, j, k);
  }

  lemma LineLogin(s: State, s': State, jti: Jti)
    requires OneLine(s) && jti !in s.tokens && (forall p :: IsMinting(s, p) ==> s.calls[p].jti in s.tokens)
    requires s' == s.(tokens := s.tokens[jti := Token(s.now, s.logins, None)], logins := s.logins + 1)
    ensures OneLine(s')
  {
    assert forall j, k :: SameLogin(s', j, k) ==> SameLogin(s, j, k) || (j == jti && k == jti);
  }

  lemma LineClaim(s: State, s': State, pid: Pid, jti: Jti)
    requires OneLine(s) && jti in s.tokens && jti !in s.first
    requires s'.tokens == s.tokens && s'.logins == s.logins && s'.first.Keys == s.first.Keys + {jti}
    requires s'.calls == s.calls[pid := Minting(jti)] && !IsMinting(s, pid)
    ensures OneLine(s')
  {
    assert forall j, k :: SameLogin(s', j, k) <==> SameLogin(s, j, k);
    assert forall p :: IsMinting(s, p) ==> !SameLogin(s, s.calls[p].jti, jti);
    assert SameLogin(s, jti, jti);
    assert forall k :: SameLogin(s, jti, k) && k !in s.first ==> k == jti;
  }

  lemma LineMint(s: State, s': State, pid: Pid, spent: Jti, jti: Jti)
    requires OneLine(s) && IsMinting(s, pid) && s.calls[pid].jti == spent && spent in s.tokens && jti !in s.tokens
    requires s'.tokens == s.tokens[jti := Token(s.now, s.tokens[spent].login, Some(spent))] && s'.logins == s.logins
    requires s'.first == s.first && s'.calls == s.calls - {pid}
    requires forall p :: IsMinting(s, p) ==> s.calls[p].jti in s.tokens
    ensures OneLine(s')
  {
    assert forall j, k :: SameLogin(s', j, k) && j != jti && k != jti ==> SameLogin(s, j, k);
    assert forall k :: SameLogin(s', jti, k) && k != jti ==> SameLogin(s, spent, k);
    assert forall k :: SameLogin(s', k, jti) && k != jti ==> SameLogin(s, spent, k) && SameLogin(s, k, spent);
    assert forall p :: IsMinting(s', p) ==> IsMinting(s, p) && p != pid && s'.calls[p] == s.calls[p];
  }

  lemma LineStep(s: State, a: Action, lim: Limits)
    requires Inv(s, lim) && Enabled(s, a) && OnTime(s, a, lim) && Tight(lim)
    ensures OneLine(Do(s, a))
  {
    hide Entered, Refreshable, OneLine, CallOk, TokenOk, SameLogin;
    var s' := Do(s, a);
    MintingKnown(s);
    match a
    case Login(jti) => LineLogin(s, s', jti);
    case Claim(pid) =>
      if Wins(s, a) {
        WinnerIsFresh(s, a, lim);
        CallKnown(s, pid);
        LineClaim(s, s', pid, s.calls[pid].jti);
      } else {
        LineFrame(s, s');
      }
    case Mint(pid, jti) => LineMint(s, s', pid, s.calls[pid].jti, jti);
    case _ => LineFrame(s, s');
  }

  lemma CallKnown(s: State, p: Pid)
    requires CallsOk(s) && p in s.calls
    ensures s.calls[p].jti in s.tokens
  {
    assert CallOk(s, s.calls[p]);
  }

  lemma MintingKnown(s: State)
    requires CallsOk(s)
    ensures forall p :: IsMinting(s, p) ==> s.calls[p].jti in s.tokens
  {
    forall p | IsMinting(s, p)
      ensures s.calls[p].jti in s.tokens
    {
      CallKnown(s, p);
    }
  }

  lemma InvStep(s: State, a: Action, lim: Limits)
    requires Inv(s, lim) && Enabled(s, a) && OnTime(s, a, lim) && Tight(lim)
    ensures Inv(Do(s, a), lim)
  {
    hide *;
    InvParts(s, lim);
    TokensStep(s, a, lim);
    CallsStep(s, a, lim);
    LineStep(s, a, lim);
    InvFrom(Do(s, a), lim);
  }

  lemma InvParts(s: State, lim: Limits)
    requires Inv(s, lim)
    ensures TokensOk(s, lim) && CallsOk(s) && OneLine(s)
  {
  }

  lemma InvFrom(s: State, lim: Limits)
    requires TokensOk(s, lim) && CallsOk(s) && OneLine(s)
    ensures Inv(s, lim)
  {
  }

  // ---------------------------------------------------------------- whole runs

  /** The state before action i of a run. */
  ghost function StateAt(s: State, acts: seq<Action>, lim: Limits, i: nat): State
    requires Legal(s, acts, lim) && i <= |acts|
    decreases i, acts
  {
    if i == 0 then s else StateAt(Do(s, acts[0]), acts[1..], lim, i - 1)
  }

  lemma {:induction false} StateStep(s: State, acts: seq<Action>, lim: Limits, i: nat)
    requires Legal(s, acts, lim) && i < |acts|
    ensures var t := StateAt(s, acts, lim, i);
      Enabled(t, acts[i]) && OnTime(t, acts[i], lim) && StateAt(s, acts, lim, i + 1) == Do(t, acts[i])
    decreases i
  {
    hide Enabled, Do, OnTime;
    if i > 0 {
      StateStep(Do(s, acts[0]), acts[1..], lim, i - 1);
    }
  }

  /** What the invariant says about tokens and calls holds in every run, however slow. */
  lemma {:induction false} RunTokensOk(acts: seq<Action>, lim: Limits, i: nat)
    requires Legal(START, acts, lim) && i <= |acts|
    ensures TokensOk(StateAt(START, acts, lim, i), lim) && CallsOk(StateAt(START, acts, lim, i))
  {
    hide Enabled, Do, OnTime, TokensOk, CallsOk, Legal;
    if i == 0 {
      StartInv(lim);
    } else {
      RunTokensOk(acts, lim, i - 1);
      StateStep(START, acts, lim, i - 1);
      TokensStep(StateAt(START, acts, lim, i - 1), acts[i - 1], lim);
      CallsStep(StateAt(START, acts, lim, i - 1), acts[i - 1], lim);
    }
  }

  lemma {:induction false} RunInv(acts: seq<Action>, lim: Limits, i: nat)
    requires Legal(START, acts, lim) && Tight(lim) && i <= |acts|
    ensures Inv(StateAt(START, acts, lim, i), lim)
  {
    hide Enabled, Do, OnTime, Inv, Legal, Tight;
    if i == 0 {
      StartInv(lim);
    } else {
      RunInv(acts, lim, i - 1);
      StateStep(START, acts, lim, i - 1);
      InvStep(StateAt(START, acts, lim, i - 1), acts[i - 1], lim);
    }
  }

  lemma {:induction false} HistoryLasts(acts: seq<Action>, lim: Limits, i: nat, j: nat, jti: Jti)
    requires Legal(START, acts, lim) && i <= j <= |acts|
    requires jti in StateAt(START, acts, lim, i).first
    ensures jti in StateAt(START, acts, lim, j).first
    decreases j
  {
    hide Enabled, Do, OnTime, Legal;
    if i < j {
      HistoryLasts(acts, lim, i, j - 1, jti);
      StateStep(START, acts, lim, j - 1);
      DoIsLater(StateAt(START, acts, lim, j - 1), acts[j - 1]);
    }
  }

  /** Action i of the run claims `jti`, successfully. */
  ghost predicate Rotates(acts: seq<Action>, lim: Limits, i: nat, jti: Jti)
    requires Legal(START, acts, lim)
  {
    && i < |acts|
    && var s := StateAt(START, acts, lim, i);
    Wins(s, acts[i]) && s.calls[acts[i].pid].jti == jti
  }

  /** Once a token was revoked or rotated it is never rotated again, even after its entry is pruned. */
  lemma NeverAgain(acts: seq<Action>, lim: Limits, i: nat, j: nat, jti: Jti)
    requires Legal(START, acts, lim) && Tight(lim) && i <= j <= |acts|
    requires jti in StateAt(START, acts, lim, i).first
    ensures !Rotates(acts, lim, j, jti)
  {
    hide Do, Inv, Legal, Tight, Enabled, OnTime;
    HistoryLasts(acts, lim, i, j, jti);
    RunInv(acts, lim, j);
    if Rotates(acts, lim, j, jti) {
      StateStep(START, acts, lim, j);
      WinnerIsFresh(StateAt(START, acts, lim, j), acts[j], lim);
    }
  }

  /** In every run, each token is rotated at most once. */
  lemma RotatedAtMostOnce(acts: seq<Action>, lim: Limits, i: nat, j: nat, jti: Jti)
    requires Legal(START, acts, lim) && Tight(lim)
    requires Rotates(acts, lim, i, jti) && Rotates(acts, lim, j, jti)
    ensures i == j
  {
    hide Inv, Legal, Tight, OnTime;
    if i < j {
      StateStep(START, acts, lim, i);
      NeverAgain(acts, lim, i + 1, j, jti);
    } else if j < i {
      StateStep(START, acts, lim, j);
      NeverAgain(acts, lim, j + 1, i, jti);
    }
  }

  /** VerifyToken would accept the token if it ran now. */
  ghost predicate Live(s: State, jti: Jti) {
    jti in s.tokens && s.now < s.tokens[jti].iat + TOKEN_TTL && jti !in s.revoked
  }

  lemma LiveIsFresh(s: State, jti: Jti, lim: Limits)
    requires TokensOk(s, lim) && Live(s, jti)
    ensures jti !in s.first
  {
    assert TokenOk(s, jti, lim);
  }

  /** At every instant of every run, at most one token descended from one login verifies. */
  lemma OneLiveTokenPerLogin(acts: seq<Action>, lim: Limits, i: nat, j: Jti, k: Jti)
    requires Legal(START, acts, lim) && Tight(lim) && i <= |acts|
    requires var s := StateAt(START, acts, lim, i);
      Live(s, j) && Live(s, k) && s.tokens[j].login == s.tokens[k].login
    ensures j == k
  {
    hide Legal, Tight, CallsOk, TokensOk;
    var s := StateAt(START, acts, lim, i);
    RunInv(acts, lim, i);
    LiveIsFresh(s, j, lim);
    LiveIsFresh(s, k, lim);
    assert SameLogin(s, j, k);
  }

  /** How long a verification may take between its expiry check and its revocation check. */
  const VERIFY_STALL := REFRESH_GRACE + 1

  /** Action i of the run accepts a token that was revoked or claimed, at most `stall` seconds
      after it found the token unexpired. */
  ghost predicate AcceptsRevoked(acts: seq<Action>, lim: Limits, i: nat, stall: nat)
    requires Legal(START, acts, lim)
  {
    && i < |acts| && acts[i].Accept?
    && var s := StateAt(START, acts, lim, i);
    && Enabled(s, acts[i])
    && var c := s.calls[acts[i].pid];
    c.jti in s.first && c.jti !in s.revoked && s.now - c.since <= stall
  }

  /** A verification that takes no longer than VERIFY_STALL never accepts a revoked token, however
      long ago the entry was pruned and however slow other calls are. */
  lemma RevokedNeverVerifies(acts: seq<Action>, lim: Limits, i: nat)
    requires Legal(START, acts, lim)
    ensures !AcceptsRevoked(acts, lim, i, VERIFY_STALL)
  {
    hide Legal, Do;
    if i < |acts| {
      var s := StateAt(START, acts, lim, i);
      RunTokensOk(acts, lim, i);
      if acts[i].Accept? && Enabled(s, acts[i]) {
        assert CallOk(s, s.calls[acts[i].pid]);
        assert TokenOk(s, s.calls[acts[i].pid].jti, lim);
      }
    }
  }

  // ---------------------------------------------------------------- runs written out

  datatype History = History(states: seq<State>, acts: seq<Action>)

  ghost predicate Follows(s: State, a: Action, t: State, lim: Limits) {
    Enabled(s, a) && OnTime(s, a, lim) && t == Do(s, a)
  }

  ghost predicate FollowsAt(h: History, i: nat, lim: Limits)
    requires i < |h.acts| && |h.states| == |h.acts| + 1
  {
    Follows(h.states[i], h.acts[i], h.states[i + 1], lim)
  }

  ghost predicate Consistent(h: History, lim: Limits) {
    && |h.states| == |h.acts| + 1
    && h.states[0] == START
    && forall i :: 0 <= i < |h.acts| ==> FollowsAt(h, i, lim)
  }

  function Last(h: History): State
    requires |h.states| > 0
  {
    h.states[|h.states| - 1]
  }

  lemma Begin(lim: Limits) returns (h: History)
    ensures Consistent(h, lim) && h.states == [START] && h.acts == []
  {
    h := History([START], []);
  }

  /** One more action. */
  lemma Extend(h: History, a: Action, t: State, lim: Limits) returns (g: History)
    requires Consistent(h, lim) && Follows(Last(h), a, t, lim)
    ensures Consistent(g, lim) && g.states == h.states + [t] && g.acts == h.acts + [a] && |g.states| == |g.acts| + 1
  {
    hide Follows;
    g := History(h.states + [t], h.acts + [a]);
    forall i | 0 <= i < |g.acts|
      ensures FollowsAt(g, i, lim)
    {
      assert i < |h.acts| ==> FollowsAt(h, i, lim);
    }
  }

  lemma {:induction false} ConsistentIsLegal(s: State, states: seq<State>, acts: seq<Action>, lim: Limits)
    requires |states| == |acts| + 1 && states[0] == s
    requires forall i :: 0 <= i < |acts| ==> FollowsAt(History(states, acts), i, lim)
    ensures Legal(s, acts, lim)
    ensures forall i :: 0 <= i <= |acts| ==> StateAt(s, acts, lim, i) == states[i]
    decreases |acts|
  {
    hide Enabled, Do, OnTime;
    if acts != [] {
      assert FollowsAt(History(states, acts), 0, lim);
      forall i | 0 <= i < |acts| - 1
        ensures FollowsAt(History(states[1..], acts[1..]), i, lim)
      {
        assert FollowsAt(History(states, acts), i + 1, lim);
      }
      ConsistentIsLegal(states[1], states[1..], acts[1..], lim);
    }
  }

  // ---------------------------------------------------------------- the verification bound is exact

  /** In no run does a verification that takes at most `stall` seconds accept a revoked token. */
  ghost predicate VerifySafe(lim: Limits, stall: nat) {
    forall acts, i :: Legal(START, acts, lim) ==> !AcceptsRevoked(acts, lim, i, stall)
  }

  /** One second more and a token that was revoked at once is accepted: the entry is pruned by
      another revocation between the two checks. */
  lemma SlowVerification(lim: Limits) returns (acts: seq<Action>)
    ensures Legal(START, acts, lim) && |acts| > 0 && AcceptsRevoked(acts, lim, |acts| - 1, VERIFY_STALL + 1)
  {
    hide Consistent, Legal;
    var x, y := Jti(0), Jti(1);
    var s2 := State(0, map[x := Token(0, 0, None), y := Token(0, 1, None)], map[], map[], map[], 2);
    var h := TwoLogins(lim);
    h := Extend(h, ReadRevokeClock(0, x), s2.(calls := map[0 := Revoking(x, 0)]), lim);
    var s4 := s2.(revoked := map[x := WINDOW], first := map[x := 0]);
    assert Entered(map[], x, 0, 0) == map[x := WINDOW];
    assert map[0 := Revoking(x, 0)] - {0} == map[];
    h := Extend(h, Revoke(0), s4, lim);
    h := Extend(h, Tick(TOKEN_TTL - 1), s4.(now := TOKEN_TTL - 1), lim);
    var s6 := s4.(now := TOKEN_TTL - 1, calls := map[1 := Verifying(x, TOKEN_TTL - 1)]);
    h := Extend(h, CheckExpiry(1, x), s6, lim);
    var s7 := s6.(now := WINDOW + 1);
    h := Extend(h, Tick(VERIFY_STALL + 1), s7, lim);
    var s8 := s7.(calls := map[0 := Revoking(y, WINDOW + 1), 1 := Verifying(x, TOKEN_TTL - 1)]);
    h := Extend(h, ReadRevokeClock(0, y), s8, lim);
    var s9 := s7.(revoked := map[y := 2 * WINDOW + 1], first := map[x := 0, y := WINDOW + 1]);
    assert Entered(s8.revoked, y, WINDOW + 1, WINDOW + 1) == s9.revoked;
    assert s8.calls - {0} == s9.calls;
    h := Extend(h, Revoke(0), s9, lim);
    h := Extend(h, Accept(1), s9.(calls := map[]), lim);
    HistoryIsRun(h, lim);
    acts := h.acts;
  }

  lemma HistoryIsRun(h: History, lim: Limits)
    requires Consistent(h, lim)
    ensures Legal(START, h.acts, lim) && |h.states| == |h.acts| + 1
    ensures forall i :: 0 <= i <= |h.acts| ==> StateAt(START, h.acts, lim, i) == h.states[i]
  {
    ConsistentIsLegal(START, h.states, h.acts, lim);
  }

  lemma TwoLogins(lim: Limits) returns (h: History)
    ensures Consistent(h, lim) && |h.states| > 0
    ensures Last(h) == State(0, map[Jti(0) := Token(0, 0, None), Jti(1) := Token(0, 1, None)], map[], map[], map[], 2)
  {
    hide Consistent;
    var x, y := Jti(0), Jti(1);
    var s1 := State(0, map[x := Token(0, 0, None)], map[], map[], map[], 1);
    h := Begin(lim);
    h := Extend(h, Login(x), s1, lim);
    h := Extend(h, Login(y), s1.(tokens := map[x := Token(0, 0, None), y := Token(0, 1, None)], logins := 2), lim);
  }

  /** For every bound on the other calls, verification is safe exactly up to VERIFY_STALL. */
  lemma VerifySafeExactly(lim: Limits, stall: nat)
    ensures VerifySafe(lim, stall) <==> stall <= 301
  {
    hide Legal, Enabled;
    if stall <= VERIFY_STALL {
      forall acts, i: nat | Legal(START, acts, lim)
        ensures !AcceptsRevoked(acts, lim, i, stall)
      {
        RevokedNeverVerifies(acts, lim, i);
      }
    } else {
      var acts := SlowVerification(lim);
      assert AcceptsRevoked(acts, lim, |acts| - 1, stall);
    }
  }

  // ---------------------------------------------------------------- the refresh bound is exact

  /** No token is rotated that was revoked or rotated before. */
  ghost predicate NoReuse(lim: Limits) {
    forall acts, i, jti :: Legal(START, acts, lim) && Rotates(acts, lim, i, jti) ==> jti !in StateAt(START, acts, lim, i).first
  }

  /** No token is rotated twice. */
  ghost predicate SingleUse(lim: Limits) {
    forall acts, i, j, jti :: Legal(START, acts, lim) && Rotates(acts, lim, i, jti) && Rotates(acts, lim, j, jti) ==> i == j
  }

  ghost predicate TwoLive(s: State, j: Jti, k: Jti) {
    j != k && Live(s, j) && Live(s, k) && s.tokens[j].login == s.tokens[k].login
  }

  /** At no instant do two tokens of one login verify. */
  ghost predicate OneLive(lim: Limits) {
    forall acts, i, j, k :: Legal(START, acts, lim) && 0 <= i <= |acts| ==> !TwoLive(StateAt(START, acts, lim, i), j, k)
  }

  /** When calls may stall longer there is a run that breaks all three. A revocation of x reads its
      clock; `wait` seconds later two refreshes of x pass their checks, and one claims x; the
      revocation then overwrites the entry with its older date, the entry is pruned while the other
      refresh is stalled, and that refresh claims x again. */
  lemma DoubleRotation(lim: Limits) returns (acts: seq<Action>, i: nat, j: nat)
    requires !Tight(lim)
    ensures Legal(START, acts, lim) && i < j && Rotates(acts, lim, i, Jti(0)) && Rotates(acts, lim, j, Jti(0))
    ensures Jti(0) in StateAt(START, acts, lim, j).first
    ensures TwoLive(StateAt(START, acts, lim, |acts|), Jti(2), Jti(3))
  {
    hide Consistent, Legal;
    var wait := if lim.stall > WINDOW then 0 else WINDOW + 1 - lim.stall;
    var h := FirstClaim(lim, wait);
    i := |h.acts| - 1;
    var g := EntryPruned(lim, wait, h);
    var f := SecondClaim(lim, wait, g);
    j := |g.acts| + 1;
    HistoryIsRun(f, lim);
    acts := f.acts;
  }

  function TwoTokens(): map<Jti, Token> {
    map[Jti(0) := Token(0, 0, None), Jti(1) := Token(0, 1, None)]
  }

  lemma FirstClaim(lim: Limits, wait: nat) returns (h: History)
    requires wait < WINDOW && wait <= lim.lockWait
    ensures Consistent(h, lim) && |h.states| == |h.acts| + 1 >= 2
    ensures h.acts[|h.acts| - 1] == Claim(2)
    ensures var x := Jti(0); var s := h.states[|h.acts| - 1];
      Wins(s, Claim(2)) && s.calls[2].jti == x
    ensures var x := Jti(0);
      Last(h) == State(wait, TwoTokens(), map[x := wait + WINDOW],
                       map[0 := Revoking(x, 0), 1 := Admitted(x, wait), 2 := Minting(x)], map[x := wait], 2)
  {
    hide Consistent;
    var x := Jti(0);
    var s2 := State(0, TwoTokens(), map[], map[], map[], 2);
    h := TwoLogins(lim);
    var s3 := s2.(calls := map[0 := Revoking(x, 0)]);
    h := Extend(h, ReadRevokeClock(0, x), s3, lim);
    var s4 := s3.(now := wait);
    h := Extend(h, Tick(wait), s4, lim);
    var s6 := s4.(calls := map[0 := Revoking(x, 0), 1 := Admitted(x, wait)]);
    h := Admission(h, 1, s4, s6, lim);
    var s8 := s4.(calls := map[0 := Revoking(x, 0), 1 := Admitted(x, wait), 2 := Admitted(x, wait)]);
    h := Admission(h, 2, s6, s8, lim);
    var s9 := s4.(calls := map[0 := Revoking(x, 0), 1 := Admitted(x, wait), 2 := Claiming(x, wait, wait)]);
    assert s8.calls[2 := Claiming(x, wait, wait)] == s9.calls;
    h := Extend(h, ReadClaimClock(2), s9, lim);
    assert Entered(map[], x, wait, wait) == map[x := wait + WINDOW];
    assert s9.calls[2 := Minting(x)] == map[0 := Revoking(x, 0), 1 := Admitted(x, wait), 2 := Minting(x)];
    h := Extend(h, Claim(2), State(wait, TwoTokens(), map[x := wait + WINDOW],
                       map[0 := Revoking(x, 0), 1 := Admitted(x, wait), 2 := Minting(x)], map[x := wait], 2), lim);
  }

  /** A refresh of Jti(0) looks it up and finds it young enough. */
  lemma Admission(h: History, pid: Pid, s: State, t: State, lim: Limits) returns (g: History)
    requires Consistent(h, lim) && |h.states| > 0 && Last(h) == s && pid !in s.calls
    requires s.tokens == TwoTokens() && s.revoked == map[] && 0 <= s.now < WINDOW
    requires t == s.(calls := s.calls[pid := Admitted(Jti(0), s.now)])
    ensures Consistent(g, lim) && |g.states| == |g.acts| + 1 && Last(g) == t
  {
    hide Consistent;
    var u := s.(calls := s.calls[pid := Looked(Jti(0), s.now)]);
    g := Extend(h, LookUp(pid, Jti(0)), u, lim);
    assert u.calls[pid := Admitted(Jti(0), s.now)] == t.calls;
    g := Extend(g, CheckAge(pid), t, lim);
  }

  ghost predicate Prefix(h: History, g: History) {
    h.states <= g.states && h.acts <= g.acts
  }

  lemma EntryPruned(lim: Limits, wait: nat, h: History) returns (g: History)
    requires wait < WINDOW && wait <= lim.lockWait && Consistent(h, lim) && |h.states| > 0
    requires var x := Jti(0);
      Last(h) == State(wait, TwoTokens(), map[x := wait + WINDOW],
                       map[0 := Revoking(x, 0), 1 := Admitted(x, wait), 2 := Minting(x)], map[x := wait], 2)
    ensures Consistent(g, lim) && |g.states| == |g.acts| + 1 && Prefix(h, g)
    ensures var x, y := Jti(0), Jti(1);
      Last(g) == State(WINDOW + 1, TwoTokens(), map[y := 2 * WINDOW + 1], map[1 := Admitted(x, wait), 2 := Minting(x)],
                       map[x := wait, y := WINDOW + 1], 2)
  {
    hide Consistent;
    var x, y := Jti(0), Jti(1);
    var s10 := Last(h);
    var s11 := State(wait, TwoTokens(), map[x := WINDOW], map[1 := Admitted(x, wait), 2 := Minting(x)], map[x := wait], 2);
    assert Entered(s10.revoked, x, 0, wait) == s11.revoked;
    assert s10.calls - {0} == s11.calls;
    g := Extend(h, Revoke(0), s11, lim);
    var s12 := s11.(now := WINDOW + 1);
    g := Extend(g, Tick(WINDOW + 1 - wait), s12, lim);
    var s13 := s12.(calls := map[0 := Revoking(y, WINDOW + 1), 1 := Admitted(x, wait), 2 := Minting(x)]);
    assert s12.calls[0 := Revoking(y, WINDOW + 1)] == s13.calls;
    g := Extend(g, ReadRevokeClock(0, y), s13, lim);
    var s14 := s12.(revoked := map[y := 2 * WINDOW + 1], first := map[x := wait, y := WINDOW + 1]);
    assert Entered(s13.revoked, y, WINDOW + 1, WINDOW + 1) == s14.revoked;
    assert s13.calls - {0} == s14.calls;
    g := Extend(g, Revoke(0), s14, lim);
  }

  lemma SecondClaim(lim: Limits, wait: nat, h: History) returns (g: History)
    requires wait <= WINDOW && WINDOW + 1 - wait <= lim.stall && Consistent(h, lim) && |h.states| == |h.acts| + 1
    requires var x, y := Jti(0), Jti(1);
      Last(h) == State(WINDOW + 1, TwoTokens(), map[y := 2 * WINDOW + 1], map[1 := Admitted(x, wait), 2 := Minting(x)],
                       map[x := wait, y := WINDOW + 1], 2)
    ensures Consistent(g, lim) && Prefix(h, g) && |g.states| == |g.acts| + 1 && |g.acts| == |h.acts| + 4
    ensures g.acts[|h.acts| + 1] == Claim(1)
    ensures var s := g.states[|h.acts| + 1];
      Wins(s, Claim(1)) && s.calls[1].jti == Jti(0) && Jti(0) in s.first
    ensures TwoLive(Last(g), Jti(2), Jti(3))
  {
    hide Consistent;
    var x, y, now := Jti(0), Jti(1), WINDOW + 1;
    var s14 := Last(h);
    var s15 := s14.(calls := map[1 := Claiming(x, wait, now), 2 := Minting(x)]);
    assert s14.calls[1 := Claiming(x, wait, now)] == s15.calls;
    g := Extend(h, ReadClaimClock(1), s15, lim);
    var s16 := s15.(revoked := map[x := now + WINDOW, y := now + WINDOW], calls := map[1 := Minting(x), 2 := Minting(x)]);
    assert Entered(s15.revoked, x, now, now) == s16.revoked;
    assert s15.calls[1 := Minting(x)] == s16.calls;
    g := Extend(g, Claim(1), s16, lim);
    g := BothMint(g, s16, lim);
  }

  /** Both refreshes that claimed Jti(0) issue their new tokens. */
  lemma BothMint(h: History, s: State, lim: Limits) returns (g: History)
    requires Consistent(h, lim) && |h.states| == |h.acts| + 1 && Last(h) == s
    requires s.tokens == TwoTokens() && s.calls == map[1 := Minting(Jti(0)), 2 := Minting(Jti(0))]
    requires Jti(2) !in s.revoked && Jti(3) !in s.revoked
    ensures Consistent(g, lim) && Prefix(h, g) && |g.states| == |g.acts| + 1 && |g.acts| == |h.acts| + 2
    ensures TwoLive(Last(g), Jti(2), Jti(3))
  {
    hide Consistent;
    var minted := Token(s.now, 0, Some(Jti(0)));
    var t := s.(tokens := TwoTokens()[Jti(2) := minted], calls := map[2 := Minting(Jti(0))]);
    assert s.calls - {1} == t.calls;
    g := Extend(h, Mint(1, Jti(2)), t, lim);
    var u := t.(tokens := t.tokens[Jti(3) := minted], calls := map[]);
    assert t.calls - {2} == u.calls;
    g := Extend(g, Mint(2, Jti(3)), u, lim);
  }

  /** No token is ever rotated after a revocation or rotation, no token is rotated twice, and one
      login never has two live tokens: each of these holds exactly when a refresh is never stalled
      for more than a second, or its stall and the wait for a lock together fit into the life of a
      revocation entry. */
  lemma SafeExactlyWhenTight(lim: Limits)
    ensures Tight(lim) <==> lim.stall <= 1 || lim.stall + lim.lockWait <= 1200
    ensures NoReuse(lim) <==> Tight(lim)
    ensures SingleUse(lim) <==> Tight(lim)
    ensures OneLive(lim) <==> Tight(lim)
  {
    hide Legal, Enabled, Do, Rotates, Live;
    if Tight(lim) {
      TightNoReuse(lim);
      forall acts, i: nat, j: nat, jti | Legal(START, acts, lim) && Rotates(acts, lim, i, jti) && Rotates(acts, lim, j, jti)
        ensures i == j
      {
        RotatedAtMostOnce(acts, lim, i, j, jti);
      }
      TightOneLive(lim);
    } else {
      var acts, i, j := DoubleRotation(lim);
      assert TwoLive(StateAt(START, acts, lim, |acts|), Jti(2), Jti(3));
    }
  }

  lemma TightNoReuse(lim: Limits)
    requires Tight(lim)
    ensures NoReuse(lim)
  {
    hide Legal, Tight;
    forall acts, i: nat, jti | Legal(START, acts, lim) && Rotates(acts, lim, i, jti)
      ensures jti !in StateAt(START, acts, lim, i).first
    {
      if jti in StateAt(START, acts, lim, i).first {
        NeverAgain(acts, lim, i, i, jti);
      }
    }
  }

  lemma TightOneLive(lim: Limits)
    requires Tight(lim)
    ensures OneLive(lim)
  {
    hide Legal, Tight;
    forall acts, i: nat, j, k | Legal(START, acts, lim) && i <= |acts|
      ensures !TwoLive(StateAt(START, acts, lim, i), j, k)
    {
      if TwoLive(StateAt(START, acts, lim, i), j, k) {
        OneLiveTokenPerLogin(acts, lim, i, j, k);
      }
    }
  }
}
