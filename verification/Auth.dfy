/** The authentication service: three in-memory maps and the user rows, changed by its methods. */
module Auth {
  import opened Wrappers
  import LoginLockout
  import TokenRevocation
  import Sessions

  /** A bcrypt hash, as an injective function of its text. */
  datatype Secret = Bcrypt(text: string)

  datatype User = User(password: Secret, refreshToken: Option<Sessions.Hash>, isActive: bool,
                       needsEmailVerification: bool, resetOtp: Option<Secret>, resetOtpExpiresAt: int)

  datatype Tokens = Tokens(access: Sessions.Token, refresh: Sessions.Token)

  datatype LoginResult = SignedIn(tokens: Tokens) | RequiresEmailVerification

  class AuthService {
    var loginAttemptState: LoginLockout.Attempts
    var revokedAccessTokens: TokenRevocation.Revoked
    var userTokenVersion: map<string, nat>
    var users: map<string, User>
    var nextSerial: nat
    ghost var facts: seq<Sessions.Fact>
    const accessTokenTtlSeconds: nat

    constructor (users: map<string, User>, accessTokenTtlSeconds: nat)
      requires forall u :: u in users ==> users[u].refreshToken.None?
      ensures this.users == users && this.accessTokenTtlSeconds == accessTokenTtlSeconds
      ensures loginAttemptState == map[] && revokedAccessTokens == map[]
      ensures Sessions.Started(Session())
    {
      this.users, this.accessTokenTtlSeconds := users, accessTokenTtlSeconds;
      loginAttemptState, revokedAccessTokens, userTokenVersion := map[], map[], map[];
      nextSerial, facts := 0, [];
    }

    /** The session state the methods work on. */
    ghost function Session(): Sessions.State
      reads this
    {
      Sessions.State(map u | u in users :: users[u].refreshToken, userTokenVersion, nextSerial, facts)
    }

    // ---- Login ----

    method AssertLoginNotLocked(loginKey: string, now: int) returns (refused: bool)
      modifies this`loginAttemptState
      ensures refused == LoginLockout.Blocked(old(loginAttemptState), loginKey, now)
      ensures loginAttemptState == LoginLockout.AccessStep(old(loginAttemptState), LoginLockout.Check(loginKey, now))
    {
      if loginKey !in loginAttemptState || loginAttemptState[loginKey].lockedUntil.None? {
        return false;
      }
      if loginAttemptState[loginKey].lockedUntil.value > now {
        return true;
      }
      loginAttemptState := loginAttemptState - {loginKey};
      refused := false;
    }

    method RegisterFailedLogin(loginKey: string, now: int) returns (refusal: Refusal)
      modifies this`loginAttemptState
      ensures loginAttemptState == LoginLockout.AccessStep(old(loginAttemptState), LoginLockout.Failure(loginKey, now))
      ensures refusal == if loginAttemptState[loginKey].lockedUntil.Some? then TooManyRequests else Unauthorized
    {
      var existing := if loginKey in loginAttemptState then loginAttemptState[loginKey]
                      else LoginLockout.Entry(0, None);
      var nextCount := existing.count + 1;
      if nextCount >= LoginLockout.MAX_FAILED_LOGIN_ATTEMPTS {
        loginAttemptState := loginAttemptState[loginKey :=
          LoginLockout.Entry(nextCount, Some(now + LoginLockout.LOGIN_LOCKOUT_MS))];
        return TooManyRequests;
      }
      loginAttemptState := loginAttemptState[loginKey := LoginLockout.Entry(nextCount, None)];
      refusal := Unauthorized;
    }

    /** How the submitted credentials stand against the row the e-mail lookup found. */
    function CredentialsOf(found: Option<string>, password: string): LoginLockout.Credentials
      reads this
      requires found.Some? ==> found.value in users
    {
      if found.None? then LoginLockout.NoSuchUser
      else if !users[found.value].isActive then LoginLockout.Deactivated
      else if users[found.value].password != Bcrypt(password) then LoginLockout.WrongPassword
      else LoginLockout.RightPassword
    }

    /** `found` is the user the e-mail lookup gives; the clock is read again when a failure is registered. */
    method Login(loginKey: string, found: Option<string>, password: string, now: int, later: int)
      returns (r: Result<LoginResult>)
      requires found.Some? ==> found.value in users
      modifies this`loginAttemptState, this`users, this`nextSerial, this`facts
      ensures loginAttemptState == LoginLockout.LoginStep(old(loginAttemptState),
                LoginLockout.Attempt(loginKey, now, old(CredentialsOf(found, password)), later))
      ensures LoginLockout.Blocked(old(loginAttemptState), loginKey, now) ==> r == Err(TooManyRequests)
      ensures r.Ok? <==> !LoginLockout.Blocked(old(loginAttemptState), loginKey, now)
                         && old(CredentialsOf(found, password)).RightPassword?
      ensures r.Ok? ==> (r.value.SignedIn? <==> !old(users)[found.value].needsEmailVerification)
      ensures r.Ok? <==> && !LoginLockout.Blocked(old(loginAttemptState), loginKey, now)
                         && found.Some? && old(users)[found.value].isActive
                         && old(users)[found.value].password == Bcrypt(password)
      ensures r.Ok? && r.value.SignedIn? ==> WithRefreshToken(old(users), users, found.value)
      ensures r.Err? && !LoginLockout.Blocked(old(loginAttemptState), loginKey, now) ==>
                r == Err(if !old(CredentialsOf(found, password)).Deactivated?
                            && loginKey in loginAttemptState && loginAttemptState[loginKey].lockedUntil.Some?
                         then TooManyRequests else Unauthorized)
      ensures r.Ok? && r.value.SignedIn? ==>
                && Session() == Sessions.Step(old(Session()), Sessions.Login(found.value))
                && r.value.tokens == Tokens(Sessions.AccessTokenIssued(old(Session()), found.value),
                                            Sessions.RefreshTokenIssued(old(Session()), found.value))
      ensures !(r.Ok? && r.value.SignedIn?) ==> Session() == old(Session()) && users == old(users)
    {
      var refused := AssertLoginNotLocked(loginKey, now);
      if refused {
        return Err(TooManyRequests);
      }
      if found.None? {
        var refusal := RegisterFailedLogin(loginKey, later);
        return Err(refusal);
      }
      var user := users[found.value];
      if !user.isActive {
        return Err(Unauthorized);
      }
      if user.password != Bcrypt(password) {
        var refusal := RegisterFailedLogin(loginKey, later);
        return Err(refusal);
      }
      loginAttemptState := loginAttemptState - {loginKey};
      if user.needsEmailVerification {
        return Ok(RequiresEmailVerification);
      }
      var tokens := IssueTokens(found.value);
      r := Ok(SignedIn(tokens));
    }

    /** Only the refresh token of one user differs. */
    static predicate WithRefreshToken(before: map<string, User>, after: map<string, User>, userId: string) {
      && userId in before && userId in after
      && after == before[userId := before[userId].(refreshToken := after[userId].refreshToken)]
    }

    /** Signing both tokens and storing the hash of the refresh token. */
    method IssueTokens(userId: string) returns (tokens: Tokens)
      requires userId in users
      modifies this`users, this`nextSerial, this`facts
      ensures WithRefreshToken(old(users), users, userId)
      ensures Session() == Sessions.Issue(old(Session()), userId)
      ensures tokens == Tokens(Sessions.AccessTokenIssued(old(Session()), userId),
                               Sessions.RefreshTokenIssued(old(Session()), userId))
    {
      var version := if userId in userTokenVersion then userTokenVersion[userId] else 0;
      tokens := Tokens(Sessions.Token(userId, version, nextSerial), Sessions.Token(userId, version, nextSerial + 1));
      nextSerial := nextSerial + 2;
      users := users[userId := users[userId].(refreshToken := Some(Sessions.Hashed(tokens.refresh)))];
      facts := facts + [Sessions.Issued(tokens.refresh)];
    }

    method RefreshTokens(userId: string, refreshToken: Sessions.Token) returns (r: Result<Tokens>)
      modifies this`users, this`nextSerial, this`facts
      ensures r.Ok? <==> Sessions.Honoured(old(Session()), userId, refreshToken)
      ensures r.Err? ==> r == Err(Unauthorized) && users == old(users)
      ensures r.Ok? ==> WithRefreshToken(old(users), users, userId)
      ensures Session() == Sessions.Step(old(Session()), Sessions.Refresh(userId, refreshToken))
      ensures r.Ok? ==> r.value == Tokens(Sessions.AccessTokenIssued(old(Session()), userId),
                                          Sessions.RefreshTokenIssued(old(Session()), userId))
    {
      if userId !in users || users[userId].refreshToken.None? {
        return Err(Unauthorized);
      }
      if users[userId].refreshToken.value != Sessions.Hashed(refreshToken) {
        return Err(Unauthorized);
      }
      var tokens := IssueTokens(userId);
      r := Ok(tokens);
    }

    // ---- Revocation ----

    method PruneRevocationState(now: int)
      modifies this`revokedAccessTokens
      ensures revokedAccessTokens == TokenRevocation.Prune(old(revokedAccessTokens), now)
    {
      var pending := revokedAccessTokens.Keys;
      while pending != {}
        invariant pending <= revokedAccessTokens.Keys <= old(revokedAccessTokens).Keys
        invariant forall jti :: jti in revokedAccessTokens ==> revokedAccessTokens[jti] == old(revokedAccessTokens)[jti]
        invariant forall jti :: jti in old(revokedAccessTokens) && jti !in pending ==>
                    (jti in revokedAccessTokens <==> old(revokedAccessTokens)[jti] >= now)
        decreases |pending|
      {
        var jti :| jti in pending;
        pending := pending - {jti};
        if revokedAccessTokens[jti] < now {
          revokedAccessTokens := revokedAccessTokens - {jti};
        }
      }
      assert revokedAccessTokens == TokenRevocation.Prune(old(revokedAccessTokens), now);
    }

    method RevokeAccessToken(jti: string, exp: int, now: int)
      modifies this`revokedAccessTokens
      ensures revokedAccessTokens == TokenRevocation.Revoke(old(revokedAccessTokens), jti, exp, now)
    {
      PruneRevocationState(now);
      if exp <= now {
        return;
      }
      revokedAccessTokens := revokedAccessTokens[jti := exp];
    }

    method IsAccessTokenRevoked(jti: Option<string>, user: string, tokenVersion: Option<nat>, now: int)
      returns (r: bool)
      modifies this`revokedAccessTokens
      ensures revokedAccessTokens == TokenRevocation.Prune(old(revokedAccessTokens), now)
      ensures r <==> || jti.None? || jti.value == ""
                     || TokenRevocation.Listed(old(revokedAccessTokens), jti.value, now)
                     || (if tokenVersion.Some? then tokenVersion.value else 0)
                        != Sessions.VersionOf(userTokenVersion, user)
    {
      PruneRevocationState(now);
      if jti.None? || jti.value == "" {
        return true;
      }
      if jti.value in revokedAccessTokens {
        var revokedExp := revokedAccessTokens[jti.value];
        if revokedExp != 0 && revokedExp >= now {
          return true;
        }
      }
      var currentVersion := if user in userTokenVersion then userTokenVersion[user] else 0;
      var payloadVersion := if tokenVersion.Some? then tokenVersion.value else 0;
      r := payloadVersion != currentVersion;
    }

    method Logout(userId: string, jti: Option<string>, exp: Option<int>, now: int)
      modifies this`users, this`facts, this`revokedAccessTokens
      ensures Session() == Sessions.Step(old(Session()), Sessions.Logout(userId))
      ensures if userId in old(users) then WithRefreshToken(old(users), users, userId) else users == old(users)
      ensures revokedAccessTokens ==
                if jti.Some? && jti.value != ""
                then TokenRevocation.Revoke(old(revokedAccessTokens), jti.value,
                                            if exp.Some? then exp.value else now + accessTokenTtlSeconds, now)
                else old(revokedAccessTokens)
    {
      if userId in users {
        users := users[userId := users[userId].(refreshToken := None)];
        facts := facts + [Sessions.Ended(userId)];
      }
      if jti.Some? && jti.value != "" {
        var fallbackExp := now + accessTokenTtlSeconds;
        RevokeAccessToken(jti.value, if exp.Some? then exp.value else fallbackExp, now);
      }
    }

    // ---- Passwords ----

    method InvalidateAllUserTokens(userId: string)
      modifies this`userTokenVersion
      ensures userTokenVersion == old(userTokenVersion)[userId := Sessions.VersionOf(old(userTokenVersion), userId) + 1]
    {
      var current := if userId in userTokenVersion then userTokenVersion[userId] else 0;
      userTokenVersion := userTokenVersion[userId := current + 1];
    }

    method ChangePassword(userId: string, oldPassword: string, newPassword: string) returns (r: Result<()>)
      modifies this`users, this`userTokenVersion, this`facts
      ensures r.Ok? <==> userId in old(users) && old(users)[userId].password == Bcrypt(oldPassword)
      ensures r.Err? ==> r == Err(BadRequest) && users == old(users) && Session() == old(Session())
      ensures r.Ok? ==> && Session() == Sessions.Step(old(Session()), Sessions.ChangePassword(userId))
                        && users == old(users)[userId := old(users)[userId].(
                                      password := Bcrypt(newPassword), refreshToken := None)]
    {
      if userId !in users || users[userId].password != Bcrypt(oldPassword) {
        return Err(BadRequest);
      }
      users := users[userId := users[userId].(password := Bcrypt(newPassword), refreshToken := None)];
      InvalidateAllUserTokens(userId);
      facts := facts + [Sessions.Invalidated(userId)];
      r := Ok(());
    }

    method ResetPassword(found: Option<string>, otp: string, newPassword: string, now: int) returns (r: Result<()>)
      requires found.Some? ==> found.value in users
      modifies this`users, this`userTokenVersion, this`facts
      ensures r.Ok? <==> && found.Some? && old(users)[found.value].resetOtp == Some(Bcrypt(otp))
                         && now <= old(users)[found.value].resetOtpExpiresAt
      ensures r.Err? ==> && r == Err(BadRequest) && Session() == old(Session())
                         && users == if found.Some? && now > old(users)[found.value].resetOtpExpiresAt
                                     then old(users)[found.value := old(users)[found.value].(resetOtp := None)]
                                     else old(users)
      ensures r.Ok? ==> && Session() == Sessions.Step(old(Session()), Sessions.ResetPassword(found.value))
                        && users == old(users)[found.value := old(users)[found.value].(
                                      password := Bcrypt(newPassword), resetOtp := None, refreshToken := None)]
    {
      if found.None? || users[found.value].resetOtp.None? {
        return Err(BadRequest);
      }
      var user := users[found.value];
      if now > user.resetOtpExpiresAt {
        users := users[found.value := user.(resetOtp := None)];
        assert Session() == old(Session());
        return Err(BadRequest);
      }
      if user.resetOtp.value != Bcrypt(otp) {
        return Err(BadRequest);
      }
      users := users[found.value := user.(password := Bcrypt(newPassword), resetOtp := None, refreshToken := None)];
      InvalidateAllUserTokens(found.value);
      facts := facts + [Sessions.Invalidated(found.value)];
      r := Ok(());
    }
  }
}
