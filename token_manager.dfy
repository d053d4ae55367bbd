/** Token state (`TokenManager`): the cached access and refresh tokens.

    The live class has only `clearTokens`. The rest of this module models the
    login and refresh design that is COMMENTED OUT in TokenManager.java
    (`getAccessToken`, `loginAndCacheTokens`, `refreshAccessToken`): it is
    not part of the running code. Each server reply is a parameter, and each
    operation reports the exchanges it would make, so that "logs in only
    when ..." can be stated. A reply to login that fails the 200 check
    raises an exception in that design; here it is an error that leaves the
    tokens as they were. */
module Auth {
  import opened Wrappers

  /** The two static fields, `null` being None. */
  datatype Tokens = Tokens(access: Option<string>, refresh: Option<string>)

  /** What a login or refresh response holds; a missing JSON field is None. */
  datatype TokenReply = TokenReply(status: int, accessToken: Option<string>, refreshToken: Option<string>)

  /** A network exchange the operation makes. */
  datatype Exchange = LoginCall | RefreshCall(refreshToken: string)

  datatype AuthError = LoginRejected(status: int)

  /** The outcome of one operation: the new tokens, the exchanges made in
      order, and the error raised, if any. */
  datatype Step = Step(tokens: Tokens, calls: seq<Exchange>, error: Option<AuthError>)

  /** (Commented-out design) `loginAndCacheTokens`: the response must pass
      the 200 specification; then both tokens are taken from it. */
  function LoginStep(t: Tokens, login: TokenReply): Step {
    if login.status == 200 then Step(Tokens(login.accessToken, login.refreshToken), [LoginCall], None)
    else Step(t, [LoginCall], Some(LoginRejected(login.status)))
  }

  /** (Commented-out design) `getAccessToken`: logs in only when no access
      token is cached. */
  function GetAccessTokenStep(t: Tokens, login: TokenReply): Step {
    if t.access.None? then LoginStep(t, login) else Step(t, [], None)
  }

  /** (Commented-out design) `refreshAccessToken`: without a refresh token,
      log in; otherwise send it, and on status 200 take both tokens from the
      reply, on any other status fall back to login. */
  function RefreshStep(t: Tokens, refresh: TokenReply, login: TokenReply): Step {
    if t.refresh.None? then LoginStep(t, login)
    else
      var sent := RefreshCall(t.refresh.value);
      if refresh.status == 200 then
        Step(Tokens(refresh.accessToken, refresh.refreshToken), [sent], None)
      else
        var fallback := LoginStep(t, login);
        Step(fallback.tokens, [sent] + fallback.calls, fallback.error)
  }

  /** A login either stores both tokens of the same response, or fails and
      leaves the tokens untouched; it is always exactly one exchange. */
  lemma LoginPairsTokens(t: Tokens, login: TokenReply)
    ensures LoginStep(t, login).calls == [LoginCall]
    ensures LoginStep(t, login).error.None? <==> login.status == 200
    ensures LoginStep(t, login).error.None? ==>
      LoginStep(t, login).tokens == Tokens(login.accessToken, login.refreshToken)
    ensures LoginStep(t, login).error.Some? ==> LoginStep(t, login).tokens == t
  {
  }

  /** A cached access token is returned with no exchange and no change. */
  lemma CachedTokenNoLogin(t: Tokens, login: TokenReply)
    requires t.access.Some?
    ensures GetAccessTokenStep(t, login) == Step(t, [], None)
  {
  }

  /** After a login that yielded an access token, asking again makes no
      exchange, whatever the server would now reply. */
  lemma SecondGetIsCached(t: Tokens, first: TokenReply, second: TokenReply)
    requires GetAccessTokenStep(t, first).error.None?
    requires GetAccessTokenStep(t, first).tokens.access.Some?
    ensures var s := GetAccessTokenStep(t, first).tokens;
      GetAccessTokenStep(s, second) == Step(s, [], None)
  {
  }

  /** A login answered without an access token leaves it absent, so the next
      `getAccessToken` logs in again. */
  lemma NullAccessTokenLogsInAgain(t: Tokens, first: TokenReply, second: TokenReply)
    requires t.access.None? && first.status == 200 && first.accessToken.None?
    ensures var s := GetAccessTokenStep(t, first).tokens;
      GetAccessTokenStep(s, second).calls == [LoginCall]
  {
  }

  /** Without a refresh token, refreshing is exactly a login. */
  lemma RefreshWithoutTokenLogsIn(t: Tokens, refresh: TokenReply, login: TokenReply)
    requires t.refresh.None?
    ensures RefreshStep(t, refresh, login) == LoginStep(t, login)
  {
  }

  /** A refresh answered with 200 replaces both tokens from that reply and
      makes no login; any other status ends in the outcome of a login made
      after the refresh attempt. */
  lemma RefreshOutcome(t: Tokens, refresh: TokenReply, login: TokenReply)
    requires t.refresh.Some?
    ensures var s := RefreshStep(t, refresh, login);
      && s.calls[0] == RefreshCall(t.refresh.value)
      && (refresh.status == 200 <==> LoginCall !in s.calls)
      && (refresh.status == 200 ==> s == Step(Tokens(refresh.accessToken, refresh.refreshToken), [RefreshCall(t.refresh.value)], None))
      && (refresh.status != 200 ==>
            && s.calls == [RefreshCall(t.refresh.value), LoginCall]
            && s.tokens == LoginStep(t, login).tokens
            && s.error == LoginStep(t, login).error)
  {
    var s := RefreshStep(t, refresh, login);
    if refresh.status == 200 {
      assert s.calls == [RefreshCall(t.refresh.value)];
    } else {
      assert s.calls == [RefreshCall(t.refresh.value)] + [LoginCall];
      assert s.calls[1] == LoginCall;
    }
  }

  /** No operation makes more than two exchanges or more than one login. */
  lemma AtMostOneLogin(t: Tokens, refresh: TokenReply, login: TokenReply)
    ensures |GetAccessTokenStep(t, login).calls| <= 1
    ensures var calls := RefreshStep(t, refresh, login).calls;
      && 1 <= |calls| <= 2
      && forall i, j :: 0 <= i < j < |calls| && calls[i] == LoginCall ==> calls[j] != LoginCall
  {
  }

  /** The token cache. */
  class TokenManager {
    var accessToken: Option<string>
    var refreshToken: Option<string>

    function State(): Tokens
      reads this
    {
      Tokens(accessToken, refreshToken)
    }

    /** Both fields start out null. */
    constructor ()
      ensures accessToken == None && refreshToken == None
    {
      accessToken, refreshToken := None, None;
    }

    /** `clearTokens()`: both tokens become absent, whatever they were. */
    method ClearTokens()
      modifies this
      ensures accessToken == None && refreshToken == None
    {
      accessToken := None;
      refreshToken := None;
    }

    /** (Commented-out design) `loginAndCacheTokens`. */
    method LoginAndCacheTokens(login: TokenReply) returns (calls: seq<Exchange>, error: Option<AuthError>)
      modifies this
      ensures LoginStep(old(State()), login) == Step(State(), calls, error)
    {
      calls := [LoginCall];
      if login.status != 200 {
        return calls, Some(LoginRejected(login.status));
      }
      accessToken := login.accessToken;
      refreshToken := login.refreshToken;
      error := None;
    }

    /** (Commented-out design) `getAccessToken`: the access token after
        logging in if none was cached. */
    method GetAccessToken(login: TokenReply) returns (token: Result<Option<string>, AuthError>, calls: seq<Exchange>)
      modifies this
      ensures var s := GetAccessTokenStep(old(State()), login);
        && State() == s.tokens && calls == s.calls
        && (s.error.Some? ==> token == Failure(s.error.value))
        && (s.error.None? ==> token == Success(accessToken))
    {
      calls := [];
      if accessToken == None {
        var error;
        calls, error := LoginAndCacheTokens(login);
        if error.Some? {
          return Failure(error.value), calls;
        }
      }
      token := Success(accessToken);
    }

    /** (Commented-out design) `refreshAccessToken`. */
    method RefreshAccessToken(refresh: TokenReply, login: TokenReply) returns (calls: seq<Exchange>, error: Option<AuthError>)
      modifies this
      ensures RefreshStep(old(State()), refresh, login) == Step(State(), calls, error)
    {
      if refreshToken == None {
        calls, error := LoginAndCacheTokens(login);
        return;
      }
      calls := [RefreshCall(refreshToken.value)];
      if refresh.status == 200 {
        accessToken := refresh.accessToken;
        refreshToken := refresh.refreshToken;
        error := None;
      } else {
        var more;
        more, error := LoginAndCacheTokens(login);
        calls := calls + more;
      }
    }
  }

  /** Clearing twice is clearing once, and after a clear the next
      `getAccessToken` logs in. */
  method ClearThenGet(m: TokenManager, login: TokenReply) returns (calls: seq<Exchange>)
    modifies m
    ensures calls == [LoginCall]
    ensures login.status == 200 ==> m.State() == Tokens(login.accessToken, login.refreshToken)
    ensures login.status != 200 ==> m.State() == Tokens(None, None)
  {
    m.ClearTokens();
    m.ClearTokens();
    var token;
    token, calls := m.GetAccessToken(login);
  }
}
