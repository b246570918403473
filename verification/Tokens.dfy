/** The token manager of security/jwt.go: expiry, the revocation set and its lazy pruning, and
    the atomic claim that makes a refresh single-use. Signing and parsing are not modelled: a
    token is its claims. All instants are Unix seconds. */
module Tokens {
  import opened Text
  import opened Wrappers

  const TOKEN_TTL := 15 * 60
  const REFRESH_GRACE := 5 * 60
  const MAX_REFRESHABLE_AGE := 24 * 60 * 60

  /** A token id; the source's empty string is a separate case. */
  datatype Jti = NoJti | Jti(id: nat)

  datatype Claims = Claims(sub: string, role: string, deviceFP: string, iat: int, exp: int, jti: Jti)

  datatype Error = TokenExpired | TokenInvalid | DeviceMismatch | TokenRevoked | RefreshTooLate | UserIDRequired

  /** A revocation entry lives until the instant it maps to. */
  type Revocations = map<Jti, int>

  /** The set after pruneLocked at `now`. */
  function Pruned(revoked: Revocations, now: int): Revocations {
    map j | j in revoked && !(revoked[j] < now) :: revoked[j]
  }

  /** A revocation whose expiry was computed from `clock`, entered at `now`. */
  function Entered(revoked: Revocations, jti: Jti, clock: int, now: int): Revocations {
    Pruned(revoked[jti := clock + TOKEN_TTL + REFRESH_GRACE], now)
  }

  /** The token is in the set until 1200 seconds after the clock reading; every other entry stays until
      its own instant has passed. */
  ghost predicate RevokedFor20Minutes(before: Revocations, after: Revocations, jti: Jti, clock: int, now: int) {
    && (jti in after <==> now <= clock + 1200) && (jti in after ==> after[jti] == clock + 1200)
    && (forall j :: j != jti ==> (j in after <==> j in before && now <= before[j]))
    && (forall j :: j != jti && j in after ==> after[j] == before[j])
  }

  function Issued(sub: string, role: string, deviceFP: string, jti: Jti, now: int): Claims {
    Claims(sub, if Trim(role) == "" then "customer" else role, deviceFP, now, now + TOKEN_TTL, jti)
  }

  /** What parse asks of the claims of a signed token. */
  predicate Parses(c: Claims) {
    c.sub != "" && c.exp != 0
  }

  /** Whether a token of this age may still be refreshed. */
  predicate Refreshable(c: Claims, now: int) {
    now < c.exp + REFRESH_GRACE && !(c.iat > 0 && now - c.iat > MAX_REFRESHABLE_AGE)
  }

  /** How old a token may be: five minutes past its expiry, and one day past its issue. */
  lemma RefreshableMeans(c: Claims, now: int)
    ensures Refreshable(c, now) <==> now - c.exp < 300 && (c.iat <= 0 || now - c.iat <= 86_400)
  {
  }

  /** The limit of a day never decides about a token that this manager issued: the other one is
      reached after 20 minutes. */
  lemma DayNeverDecides(sub: string, role: string, deviceFP: string, jti: Jti, issued: int, now: int)
    ensures Refreshable(Issued(sub, role, deviceFP, jti, issued), now) <==> now < issued + 1200
  {
  }

  class JWTManager {
    var revoked: Revocations

    constructor ()
      ensures revoked == map[]
    {
      revoked := map[];
    }

    method IssueToken(userID: string, role: string, deviceFP: string, jti: Jti, now: int) returns (r: Result<Claims, Error>)
      ensures r == if userID == "" then Err(UserIDRequired) else Ok(Issued(userID, role, deviceFP, jti, now))
      ensures r.Ok? ==>
        && r.value.iat == now && r.value.exp == r.value.iat + TOKEN_TTL
        && r.value.sub == userID != "" && r.value.deviceFP == deviceFP && r.value.jti == jti
        && r.value.exp == now + 900
        && r.value.role == if Trim(role) == "" then "customer" else role
    {
      if userID == "" {
        return Err(UserIDRequired);
      }
      return Ok(Claims(userID, if Trim(role) == "" then "customer" else role, deviceFP, now, now + TOKEN_TTL, jti));
    }

    method PruneLocked(now: int)
      modifies this
      ensures revoked == Pruned(old(revoked), now)
      ensures forall j :: j in revoked <==> j in old(revoked) && old(revoked)[j] >= now
    {
      var todo := revoked.Keys;
      while todo != {}
        invariant forall j :: j in revoked ==> j in old(revoked) && revoked[j] == old(revoked)[j]
        invariant forall j :: j in old(revoked) && (j in todo || !(old(revoked)[j] < now)) ==> j in revoked
        invariant forall j :: j in revoked && j !in todo ==> !(revoked[j] < now)
        invariant todo <= revoked.Keys
      {
        var j :| j in todo;
        todo := todo - {j};
        if revoked[j] < now {
          revoked := revoked - {j};
        }
      }
    }

    /** `clock` is read before the lock is taken, `now` is the instant inside it. */
    method RevokeToken(jti: Jti, clock: int, now: int)
      modifies this
      ensures revoked == if jti.NoJti? then old(revoked) else Entered(old(revoked), jti, clock, now)
      ensures jti.Jti? ==> RevokedFor20Minutes(old(revoked), revoked, jti, clock, now)
    {
      if jti == NoJti {
        return;
      }
      var exp := clock + (TOKEN_TTL + REFRESH_GRACE);
      revoked := revoked[jti := exp];
      PruneLocked(now);
    }

    /** True only for the first caller, which revokes the token in the same critical section. */
    method ClaimForRotation(jti: Jti, clock: int, now: int) returns (won: bool)
      modifies this
      ensures won <==> jti.Jti? && jti !in old(revoked)
      ensures revoked == if won then Entered(old(revoked), jti, clock, now) else old(revoked)
      ensures won ==> RevokedFor20Minutes(old(revoked), revoked, jti, clock, now)
    {
      if jti == NoJti {
        return false;
      }
      var exp := clock + (TOKEN_TTL + REFRESH_GRACE);
      if jti in revoked {
        return false;
      }
      revoked := revoked[jti := exp];
      PruneLocked(now);
      return true;
    }

    method VerifyToken(c: Claims, expectedDeviceFP: string, now: int) returns (r: Result<Claims, Error>)
      ensures r.Ok? ==> r.value == c
      ensures r.Ok? <==> Parses(c) && now < c.exp && c.jti !in revoked
                         && (c.deviceFP == "" || (Trim(expectedDeviceFP) != "" && expectedDeviceFP == c.deviceFP))
      ensures r == Err(TokenInvalid) <==> !Parses(c)
      ensures r == Err(TokenExpired) <==> Parses(c) && now >= c.exp
      ensures r == Err(TokenRevoked) <==> Parses(c) && now < c.exp && c.jti in revoked
      ensures r == Err(DeviceMismatch) <==> Parses(c) && now < c.exp && c.jti !in revoked && c.deviceFP != ""
                                            && (Trim(expectedDeviceFP) == "" || expectedDeviceFP != c.deviceFP)
    {
      if c.sub == "" || c.exp == 0 {
        return Err(TokenInvalid);
      }
      if now >= c.exp {
        return Err(TokenExpired);
      }
      if c.jti in revoked {
        return Err(TokenRevoked);
      }
      if c.deviceFP != "" {
        if Trim(expectedDeviceFP) == "" || expectedDeviceFP != c.deviceFP {
          return Err(DeviceMismatch);
        }
      }
      return Ok(c);
    }

    /** A refresh that nothing interrupts: its clock readings are all `now`. */
    method RefreshToken(c: Claims, deviceFP: string, newJti: Jti, now: int) returns (r: Result<Claims, Error>)
      modifies this
      ensures r.Ok? <==> Parses(c) && c.jti.Jti? && c.jti !in old(revoked) && Refreshable(c, now)
                         && (c.deviceFP == "" || deviceFP == c.deviceFP)
      ensures r == Err(TokenInvalid) <==> !Parses(c)
      ensures r == Err(DeviceMismatch) <==> Parses(c) && c.jti !in old(revoked) && c.deviceFP != "" && deviceFP != c.deviceFP
      ensures r == Err(RefreshTooLate) <==> Parses(c) && c.jti !in old(revoked) && !Refreshable(c, now)
                                            && (c.deviceFP == "" || deviceFP == c.deviceFP)
      ensures r.Ok? ==> r.value == Issued(c.sub, c.role, c.deviceFP, newJti, now)
      ensures r.Ok? ==>
        && now < c.exp + 300 && (c.iat <= 0 || now - c.iat <= 86_400)
        && r.value.sub == c.sub && r.value.deviceFP == c.deviceFP && r.value.jti == newJti
        && r.value.iat == now && r.value.exp == now + 900
        && r.value.role == if Trim(c.role) == "" then "customer" else c.role
      ensures r == Err(TokenRevoked) <==>
        Parses(c) && (c.jti in old(revoked)
                      || (c.jti.NoJti? && Refreshable(c, now) && (c.deviceFP == "" || deviceFP == c.deviceFP)))
      ensures r.Ok? ==> c.jti in revoked
      ensures revoked == if r.Ok? then Entered(old(revoked), c.jti, now, now) else old(revoked)
    {
      if c.sub == "" || c.exp == 0 {
        return Err(TokenInvalid);
      }
      if c.jti in revoked {
        return Err(TokenRevoked);
      }
      if c.deviceFP != "" && deviceFP != c.deviceFP {
        return Err(DeviceMismatch);
      }
      if now >= c.exp + REFRESH_GRACE {
        return Err(RefreshTooLate);
      }
      if c.iat > 0 && now - c.iat > MAX_REFRESHABLE_AGE {
        return Err(RefreshTooLate);
      }
      var won := ClaimForRotation(c.jti, now, now);
      if !won {
        return Err(TokenRevoked);
      }
      r := IssueToken(c.sub, c.role, c.deviceFP, newJti, now);
    }
  }
}
