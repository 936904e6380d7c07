/**
  The OAuth routes: building the authorization URL, storing the tokens the callback obtains,
  reporting whether a usable token exists, and forgetting all tokens.

  The HTTP exchange with the provider is a parameter (`Result<TokenGrant, ApiError>`); only what
  the routes do with its outcome is modelled. Environment variables are `Option<string>`
  parameters, `None` when unset.
*/
module Auth {
  import opened Wrappers
  import opened Text
  import opened Database
  import opened ZoomService

  /** An `HTTPException`: status code and detail text. */
  datatype HttpError = HttpError(status: int, detail: string)

  const CredentialsMissing: string := "Zoom OAuth credentials not configured"

  // ---------------------------------------------------------------------------------------
  // initiate_oauth

  const AuthorizeEndpoint: string := "https://zoom.us/oauth/authorize"

  /** The authorization URL; neither value is percent-encoded. */
  function AuthUrl(clientId: string, redirectUri: string): string {
    AuthorizeEndpoint + "?" + "response_type=code&" + "client_id=" + clientId + "&" + "redirect_uri=" + redirectUri
  }

  /** The reply of `initiate_oauth`: the same URL twice. */
  datatype OAuthStart = OAuthStart(authUrl: string, redirect: string)

  function InitiateOAuth(clientId: Option<string>, redirectUri: Option<string>): (r: Result<OAuthStart, HttpError>)
    ensures r.Err? <==> !Truthy(clientId) || !Truthy(redirectUri)
    ensures r.Err? ==> r.error == HttpError(500, CredentialsMissing)
    ensures r.Ok? ==> r.value.authUrl == r.value.redirect
    ensures r.Ok? ==> r.value.authUrl == AuthUrl(clientId.value, redirectUri.value)
    ensures r.Ok? ==> StartsWith(r.value.authUrl, AuthorizeEndpoint + "?")
  {
    if !Truthy(clientId) || !Truthy(redirectUri) then Err(HttpError(500, CredentialsMissing))
    else
      var url := AuthUrl(clientId.value, redirectUri.value);
      assert url == (AuthorizeEndpoint + "?") + ("response_type=code&" + "client_id=" + clientId.value + "&" + "redirect_uri=" + redirectUri.value);
      Ok(OAuthStart(url, url))
  }

  /** The three query parameters, in order. */
  function QueryParameters(clientId: string, redirectUri: string): seq<string> {
    ["response_type=code", "client_id=" + clientId, "redirect_uri=" + redirectUri]
  }

  /**
    The query string reads back as `response_type=code`, then the client id, then the redirect
    URI, as long as neither value holds a `&` (nothing is escaped).
  */
  lemma AuthUrlQuery(clientId: string, redirectUri: string)
    requires '&' !in clientId && '&' !in redirectUri
    ensures var url := AuthUrl(clientId, redirectUri);
      var query := url[|AuthorizeEndpoint| + 1..];
      && StartsWith(url, AuthorizeEndpoint + "?")
      && Split(query, '&') == QueryParameters(clientId, redirectUri)
  {
    var params := QueryParameters(clientId, redirectUri);
    var url := AuthUrl(clientId, redirectUri);
    var query := "response_type=code" + "&" + ("client_id=" + clientId) + "&" + ("redirect_uri=" + redirectUri);
    assert url == (AuthorizeEndpoint + "?") + query;
    assert url[|AuthorizeEndpoint| + 1..] == query;
    JoinThree(params, "&");
    NoAmpersand("response_type=code", "");
    NoAmpersand("client_id=", clientId);
    NoAmpersand("redirect_uri=", redirectUri);
    SplitJoin(params, '&');
  }

  lemma NoAmpersand(key: string, value: string)
    requires key in {"response_type=code", "client_id=", "redirect_uri="} && '&' !in value
    ensures '&' !in key + value
  {
    assert '&' !in key;
  }

  // ---------------------------------------------------------------------------------------
  // oauth_callback

  const FrontendUrlDefault: string := "http://localhost:3000"

  /** `os.getenv("FRONTEND_URL", default)`: a set variable wins even when empty. */
  function FrontendUrl(env: Option<string>): (url: string)
    ensures env.Some? ==> url == env.value
    ensures env.None? ==> url == FrontendUrlDefault
  {
    env.GetOr(FrontendUrlDefault)
  }

  /** The row the callback inserts for a successful code exchange. */
  function GrantedToken(g: TokenGrant, now: Instant): (row: OAuthToken)
    ensures row.accessToken == g.accessToken
    ensures row.refreshToken == (if g.refreshToken.Present? then g.refreshToken.value else None)
    ensures row.expiresAt == Some(now + g.expiresIn * MicrosPerSecond)
    ensures row.tokenType == DefaultTokenType && row.createdAt == now
  {
    OAuthToken(g.accessToken, g.refreshToken.GetOr(None), Some(ExpiryAfter(now, g.expiresIn)), DefaultTokenType, now)
  }

  /**
    `oauth_callback` on the token rows: an empty code is a 400 and missing credentials a 500,
    both before any exchange; a refused exchange passes its status on and any other failure is a
    500; a successful one appends a row and redirects to the frontend.
  */
  function CallbackStep(
    tokens: seq<OAuthToken>, code: string,
    clientId: Option<string>, clientSecret: Option<string>, redirectUri: Option<string>,
    exchange: Result<TokenGrant, ApiError>, frontendUrl: Option<string>, now: Instant)
    : (r: (Result<string, HttpError>, seq<OAuthToken>))
    ensures r.0.Err? ==> r.1 == tokens
    ensures r.0.Ok? ==> |r.1| == |tokens| + 1 && r.1[..|tokens|] == tokens
  {
    if code == "" then (Err(HttpError(400, "Authorization code not provided")), tokens)
    else if !(Truthy(clientId) && Truthy(clientSecret) && Truthy(redirectUri)) then
      (Err(HttpError(500, CredentialsMissing)), tokens)
    else
      match exchange
      case Err(StatusError(status, text)) =>
        (Err(HttpError(status, "Failed to authenticate with Zoom: " + text)), tokens)
      case Err(Failure(message)) => (Err(HttpError(500, message)), tokens)
      case Ok(g) =>
        var after := tokens + [GrantedToken(g, now)];
        assert after[..|tokens|] == tokens;
        (Ok(FrontendUrl(frontendUrl) + "/?auth=success"), after)
  }

  /** The callback fails with 400 exactly for an empty code, and needs all three credentials. */
  lemma CallbackGuards(
    tokens: seq<OAuthToken>, code: string,
    clientId: Option<string>, clientSecret: Option<string>, redirectUri: Option<string>,
    exchange: Result<TokenGrant, ApiError>, frontendUrl: Option<string>, now: Instant)
    ensures var (r, _) := CallbackStep(tokens, code, clientId, clientSecret, redirectUri, exchange, frontendUrl, now);
      && (code == "" <==> r.Err? && r.error.status == 400 && r.error.detail == "Authorization code not provided")
      && ((code != "" && !(Truthy(clientId) && Truthy(clientSecret) && Truthy(redirectUri)))
            ==> r == Err(HttpError(500, CredentialsMissing)))
      && (r.Ok? ==> exchange.Ok? && Truthy(clientId) && Truthy(clientSecret) && Truthy(redirectUri))
  {
    if code != "" {
      assert "Authorization code not provided" != CredentialsMissing;
    }
  }

  /** A refused exchange surfaces with the provider's status code. */
  lemma CallbackPassesStatus(
    tokens: seq<OAuthToken>, code: string, clientId: string, clientSecret: string, redirectUri: string,
    status: int, text: string, frontendUrl: Option<string>, now: Instant)
    requires code != "" && clientId != "" && clientSecret != "" && redirectUri != ""
    ensures CallbackStep(tokens, code, Some(clientId), Some(clientSecret), Some(redirectUri),
                         Err(StatusError(status, text)), frontendUrl, now).0.error.status == status
  {}

  /**
    After a successful callback the new row is the authoritative one: until its expiry every
    lookup returns the access token just granted, whatever rows were there before.
  */
  lemma CallbackTokenIsLatest(
    tokens: seq<OAuthToken>, code: string, clientId: string, clientSecret: string, redirectUri: string,
    g: TokenGrant, frontendUrl: Option<string>, now: Instant, later: Instant, grant: Result<TokenGrant, ApiError>)
    requires code != "" && clientId != "" && clientSecret != "" && redirectUri != ""
    requires later < ExpiryAfter(now, g.expiresIn)
    ensures var (r, after) := CallbackStep(tokens, code, Some(clientId), Some(clientSecret), Some(redirectUri),
                                           Ok(g), frontendUrl, now);
      && r == Ok(FrontendUrl(frontendUrl) + "/?auth=success")
      && Latest(after) == Some(GrantedToken(g, now))
      && AccessTokenStep(after, grant, later) == (Ok(g.accessToken), after)
  {}

  /** `oauth_callback` on the store. */
  method OAuthCallback(
    db: Store, code: string,
    clientId: Option<string>, clientSecret: Option<string>, redirectUri: Option<string>,
    exchange: Result<TokenGrant, ApiError>, frontendUrl: Option<string>, now: Instant)
    returns (r: Result<string, HttpError>)
    modifies db`tokens
    ensures (r, db.tokens)
         == CallbackStep(old(db.tokens), code, clientId, clientSecret, redirectUri, exchange, frontendUrl, now)
  {
    if code == "" {
      return Err(HttpError(400, "Authorization code not provided"));
    }
    if !(Truthy(clientId) && Truthy(clientSecret) && Truthy(redirectUri)) {
      return Err(HttpError(500, CredentialsMissing));
    }
    if exchange.Err? {
      var e := exchange.error;
      if e.StatusError? {
        return Err(HttpError(e.status, "Failed to authenticate with Zoom: " + e.text));
      }
      return Err(HttpError(500, e.message));
    }
    var data := exchange.value;
    var tokenRecord := OAuthToken(data.accessToken, data.refreshToken.GetOr(None),
                                  Some(now + data.expiresIn * MicrosPerSecond), DefaultTokenType, now);
    db.tokens := db.tokens + [tokenRecord];
    r := Ok(FrontendUrl(frontendUrl) + "/?auth=success");
  }

  // ---------------------------------------------------------------------------------------
  // auth_status and disconnect_zoom

  /** `auth_status`: authenticated exactly when `get_access_token` succeeds, refresh included. */
  function AuthStatusStep(tokens: seq<OAuthToken>, grant: Result<TokenGrant, ApiError>, now: Instant)
    : (r: (bool, seq<OAuthToken>))
  {
    var (token, after) := AccessTokenStep(tokens, grant, now);
    (token.Ok?, after)
  }

  /**
    Authenticated means: a latest row that has not expired, or an expired one whose refresh
    token is accepted.
  */
  lemma AuthStatusMeaning(tokens: seq<OAuthToken>, grant: Result<TokenGrant, ApiError>, now: Instant)
    ensures AuthStatusStep(tokens, grant, now).0
        <==> tokens != [] &&
             (!Expired(tokens[|tokens| - 1], now) || (Truthy(tokens[|tokens| - 1].refreshToken) && grant.Ok?))
    ensures !AuthStatusStep(tokens, grant, now).0 ==> AuthStatusStep(tokens, grant, now).1 == tokens
  {}

  method AuthStatus(db: Store, grant: Result<TokenGrant, ApiError>, now: Instant) returns (authenticated: bool)
    modifies db`tokens
    ensures (authenticated, db.tokens) == AuthStatusStep(old(db.tokens), grant, now)
  {
    var token := GetAccessToken(db, grant, now);
    authenticated := token.Ok?;
  }

  /** `disconnect_zoom`: every token row is deleted. */
  method DisconnectZoom(db: Store)
    modifies db`tokens
    ensures db.tokens == []
  {
    db.tokens := [];
  }

  /** After a disconnect no token is found and the status is unauthenticated, with no refresh tried. */
  lemma DisconnectedHasNoToken(grant: Result<TokenGrant, ApiError>, now: Instant)
    ensures AccessTokenStep([], grant, now) == (Err(NoAccessToken), [])
    ensures AuthStatusStep([], grant, now) == (false, [])
  {}
}
