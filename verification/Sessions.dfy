/** Whole sessions of security/jwt.go: what a login asked for, and every token that descends from it by
    refreshing. */
module Sessions {
  import opened Text
  import opened Tokens
  import opened Wrappers

  datatype Login = Login(user: string, role: string, deviceFP: string, at: int)

  /** `tokens` are the claims of all tokens ever issued, `origin` the login each descends from. */
  datatype State = State(tokens: map<Jti, Claims>, origin: map<Jti, Login>)

  datatype Action =
    | LogIn(login: Login, jti: Jti)
    | Refresh(spent: Jti, jti: Jti, now: int)

  const START := State(map[], map[])

  /** Token ids are never drawn twice, a refresh presents a token that was issued, and the clock does
      not run back behind its issue. */
  predicate Enabled(s: State, a: Action) {
    match a
    case LogIn(login, jti) => login.user != "" && jti.Jti? && jti !in s.tokens
    case Refresh(spent, jti, now) =>
      && spent in s.tokens && jti.Jti? && jti !in s.tokens
      && s.tokens[spent].iat <= now && Refreshable(s.tokens[spent], now)
  }

  function Do(s: State, a: Action): State
    requires Enabled(s, a)
  {
    match a
    case LogIn(login, jti) =>
      State(s.tokens[jti := Issued(login.user, login.role, login.deviceFP, jti, login.at)], s.origin[jti := login])
    case Refresh(spent, jti, now) =>
      var c := s.tokens[spent];
      State(s.tokens[jti := Issued(c.sub, c.role, c.deviceFP, jti, now)],
            if spent in s.origin then s.origin[jti := s.origin[spent]] else s.origin)
  }

  predicate Legal(s: State, acts: seq<Action>)
    decreases |acts|
  {
    acts == [] || (Enabled(s, acts[0]) && Legal(Do(s, acts[0]), acts[1..]))
  }

  function Run(s: State, acts: seq<Action>): State
    requires Legal(s, acts)
    decreases |acts|
  {
    if acts == [] then s else Run(Do(s, acts[0]), acts[1..])
  }

  /** A token carries what its login asked for: the user, the device, and the role, or "customer" when
      none was given. */
  ghost predicate Carries(c: Claims, login: Login) {
    && c.sub == login.user != "" && c.deviceFP == login.deviceFP
    && c.role == (if Trim(login.role) == "" then "customer" else login.role)
    && login.at <= c.iat && c.exp == c.iat + 900
  }

  ghost predicate AllCarry(s: State) {
    forall j :: j in s.tokens ==> j in s.origin && s.tokens[j].jti == j && Carries(s.tokens[j], s.origin[j])
  }

  lemma CustomerIsTrimmed()
    ensures Trim("customer") != ""
  {
    assert !IsSpace("customer"[0]) && !IsSpace("customer"[7]);
  }

  lemma StepCarries(s: State, a: Action)
    requires AllCarry(s) && Enabled(s, a)
    ensures AllCarry(Do(s, a))
  {
    hide Trim, Refreshable;
    CustomerIsTrimmed();
  }

  /** In every run of logins and refreshes, every token carries what its login asked for. */
  lemma {:induction false} SessionKeepsIdentity(s: State, acts: seq<Action>)
    requires AllCarry(s) && Legal(s, acts)
    ensures AllCarry(Run(s, acts))
    decreases |acts|
  {
    hide AllCarry, Enabled, Do;
    if acts != [] {
      StepCarries(s, acts[0]);
      SessionKeepsIdentity(Do(s, acts[0]), acts[1..]);
    }
  }

  lemma StartCarries()
    ensures AllCarry(START)
  {
  }

  /** A session has no end: refreshed every 20 minutes at the latest it outlives any number of them,
      although each token may be refreshed for one day only. */
  lemma {:induction false} SessionOutlives(n: nat, login: Login) returns (acts: seq<Action>, last: Jti)
    requires login.user != ""
    ensures Legal(START, acts) && last in Run(START, acts).tokens && last in Run(START, acts).origin
    ensures Run(START, acts).origin[last] == login
    ensures Run(START, acts).tokens[last].iat == login.at + 1199 * n
    ensures last == Jti(n) && forall j :: j in Run(START, acts).tokens ==> j.Jti? && j.id <= n
    decreases n
  {
    hide Trim;
    if n == 0 {
      acts, last := [LogIn(login, Jti(0))], Jti(0);
      assert acts[1..] == [];
      assert Legal(Do(START, acts[0]), []);
    } else {
      var before, spent := SessionOutlives(n - 1, login);
      var s := Run(START, before);
      StartCarries();
      SessionKeepsIdentity(START, before);
      assert Carries(s.tokens[spent], s.origin[spent]);
      var a := Refresh(spent, Jti(n), login.at + 1199 * n);
      assert 1199 * n == 1199 * (n - 1) + 1199;
      FreshEnough(s.tokens[spent], login.at + 1199 * n);
      Append(START, before, a);
      acts, last := before + [a], Jti(n);
    }
  }

  lemma FreshEnough(c: Claims, now: int)
    requires c.exp == c.iat + 900 && now == c.iat + 1199
    ensures Refreshable(c, now)
  {
  }

  lemma {:induction false} Append(s: State, acts: seq<Action>, a: Action)
    requires Legal(s, acts) && Enabled(Run(s, acts), a)
    ensures Legal(s, acts + [a]) && Run(s, acts + [a]) == Do(Run(s, acts), a)
    decreases |acts|
  {
    hide Enabled, Do;
    if acts == [] {
      assert [a][1..] == [] && acts + [a] == [a];
      assert Legal(Do(s, a), []);
    } else {
      assert (acts + [a])[1..] == acts[1..] + [a];
      Append(Do(s, acts[0]), acts[1..], a);
    }
  }
}
