/**
  The provider client: how the backend falls back when a provider call fails, and the life cycle
  of the stored OAuth token (the latest row is used, refreshed once it has expired).

  Each provider call is represented by the reply it produced, an abstract `Reply`: either the
  decoded JSON body or the error raised. The HTTP exchanges themselves are not modelled.
*/
module ZoomService {
  import opened Wrappers
  import opened Text
  import opened Database

  /** An exception raised by a provider call: an HTTP status error with the response text, or any other. */
  datatype ApiError = StatusError(status: int, text: string) | Failure(message: string)

  /** A participant as the provider reports it; each field is `None` when its key is missing. */
  datatype ProviderParticipant = ProviderParticipant(
    userId: Option<string>,
    id: Option<string>,
    name: Option<string>,
    userName: Option<string>,
    userEmail: Option<string>,
    email: Option<string>,
    joinTime: Option<string>,
    leaveTime: Option<string>,
    device: Option<string>,
    devices: Option<seq<string>>,
    ipAddress: Option<string>,
    location: Option<string>)

  /** A recording file as the provider reports it. */
  datatype ProviderRecording = ProviderRecording(
    id: Option<string>,
    recordingType: Option<string>,
    fileSize: Option<int>,
    fileType: Option<string>,
    downloadUrl: Option<string>,
    playUrl: Option<string>,
    recordingStart: Option<string>,
    recordingEnd: Option<string>)

  /** The parts of a decoded response body the backend reads; `None` when the key is missing. */
  datatype Payload = Payload(
    participants: Option<seq<ProviderParticipant>>,
    recordingFiles: Option<seq<ProviderRecording>>)

  type Reply = Result<Payload, ApiError>

  /** A 403, or a body naming the paid plan: past-meeting participants need a paid account. */
  predicate Restricted(e: ApiError) {
    e.StatusError? && (e.status == 403 || Contains(e.text, "Paid") || Contains(e.text, "ZMP"))
  }

  predicate NotFound(e: ApiError) {
    e.StatusError? && e.status == 404
  }

  /** The errors the participant fetch turns into an empty or substitute list. */
  predicate Degradable(e: ApiError) {
    NotFound(e) || Restricted(e)
  }

  /** `get_meeting_report`: the report, or `None` whatever went wrong. */
  function GetMeetingReport(report: Reply): (r: Option<Payload>)
    ensures r.Some? <==> report.Ok?
  {
    match report
    case Ok(p) => Some(p)
    case Err(_) => None
  }

  /** The participants of a report when it has a non-empty list of them, otherwise none. */
  function ReportParticipants(report: Option<Payload>): (ps: seq<ProviderParticipant>)
    ensures ps != [] ==> report.Some? && report.value.participants == Some(ps)
    ensures report.Some? && report.value.participants.Some? ==> ps == report.value.participants.value
    ensures report.None? || report.value.participants.None? ==> ps == []
  {
    if report.Some? && report.value.participants.Some? && report.value.participants.value != [] then
      report.value.participants.value
    else []
  }

  /**
    `get_meeting_participants`: the past-meeting list; on a 404 the live meeting's list (or
    nothing if that call fails too); when the account is restricted the report's list (or
    nothing); any other error is raised again.
  */
  function GetMeetingParticipants(past: Reply, live: Reply, report: Reply)
    : (r: Result<seq<ProviderParticipant>, ApiError>)
    ensures r.Err? <==> past.Err? && !Degradable(past.error)
    ensures r.Err? ==> r.error == past.error
    ensures past.Ok? ==> r == Ok(past.value.participants.GetOr([]))
    ensures past.Err? && NotFound(past.error) && live.Ok? ==> r == Ok(live.value.participants.GetOr([]))
    ensures past.Err? && NotFound(past.error) && live.Err? ==> r == Ok([])
    ensures past.Err? && Restricted(past.error) && !NotFound(past.error) && report.Ok?
      ==> r == Ok(report.value.participants.GetOr([]))
    ensures past.Err? && Restricted(past.error) && !NotFound(past.error) && report.Err? ==> r == Ok([])
  {
    match past
    case Ok(p) => Ok(p.participants.GetOr([]))
    case Err(e) =>
      if NotFound(e) then
        match live
        case Ok(l) => Ok(l.participants.GetOr([]))
        case Err(_) => Ok([])
      else if Restricted(e) then Ok(ReportParticipants(GetMeetingReport(report)))
      else Err(e)
  }

  /** `get_meeting_recordings`: the recording files, none on a 404, any other error raised again. */
  function GetMeetingRecordings(reply: Reply): (r: Result<seq<ProviderRecording>, ApiError>)
    ensures r.Err? <==> reply.Err? && !NotFound(reply.error)
    ensures r.Err? ==> r.error == reply.error
    ensures reply.Ok? ==> r == Ok(reply.value.recordingFiles.GetOr([]))
  {
    match reply
    case Ok(p) => Ok(p.recordingFiles.GetOr([]))
    case Err(e) => if NotFound(e) then Ok([]) else Err(e)
  }

  const SessionRequired: string := "Database session is required"

  /** `list_meetings`: refused without a database session, otherwise the provider's reply. */
  function ListMeetings(hasSession: bool, reply: Reply): (r: Reply)
    ensures !hasSession ==> r == Err(Failure(SessionRequired))
    ensures hasSession ==> r == reply
  {
    if !hasSession then Err(Failure(SessionRequired)) else reply
  }

  // ---------------------------------------------------------------------------------------
  // Tokens

  /** A successful token response; `refreshToken` is `Absent` when the key is missing. */
  datatype TokenGrant = TokenGrant(
    accessToken: string,
    refreshToken: Field<Option<string>>,
    expiresIn: int)

  datatype AuthError = NoAccessToken | NoRefreshToken | TokenRequestFailed(cause: ApiError)

  /** The row `ORDER BY created_at DESC LIMIT 1` selects. */
  function Latest(tokens: seq<OAuthToken>): (r: Option<OAuthToken>)
    ensures r.Some? <==> tokens != []
    ensures r.Some? ==> r.value in tokens && r.value == tokens[|tokens| - 1]
  {
    if tokens == [] then None else Some(tokens[|tokens| - 1])
  }

  /** The token has an expiry and `now` has reached it. */
  predicate Expired(t: OAuthToken, now: Instant) {
    t.expiresAt.Some? && now >= t.expiresAt.value
  }

  function ExpiryAfter(now: Instant, expiresIn: int): Instant {
    now + expiresIn * MicrosPerSecond
  }

  /** The refresh token to keep after a refresh: the returned one when present, else the one used. */
  function RotatedRefreshToken(g: TokenGrant, used: Option<string>): Option<string> {
    g.refreshToken.GetOr(used)
  }

  /**
    `refresh_access_token` as a function of the token rows: without a usable refresh token, or
    when the exchange fails, nothing changes; otherwise the latest row takes the new access token,
    its expiry and the rotated refresh token, or a row is added when there is none.
  */
  function RefreshStep(
    tokens: seq<OAuthToken>, refreshToken: Option<string>,
    grant: Result<TokenGrant, ApiError>, now: Instant)
    : (r: (Result<string, AuthError>, seq<OAuthToken>))
    ensures r.0.Err? ==> r.1 == tokens
    ensures |r.1| == if tokens == [] && r.0.Ok? then 1 else |tokens|
  {
    if !Truthy(refreshToken) then (Err(NoRefreshToken), tokens)
    else
      match grant
      case Err(e) => (Err(TokenRequestFailed(e)), tokens)
      case Ok(g) =>
        var expiresAt := ExpiryAfter(now, g.expiresIn);
        var kept := RotatedRefreshToken(g, refreshToken);
        if tokens == [] then
          (Ok(g.accessToken), [OAuthToken(g.accessToken, kept, Some(expiresAt), DefaultTokenType, now)])
        else
          var last := tokens[|tokens| - 1];
          var updated := last.(accessToken := g.accessToken, refreshToken := kept, expiresAt := Some(expiresAt));
          (Ok(g.accessToken), tokens[..|tokens| - 1] + [updated])
  }

  /**
    `get_access_token` as a function of the token rows: no row is an error; an expired latest row
    is refreshed with its own refresh token; otherwise its access token is returned as stored.
  */
  function AccessTokenStep(tokens: seq<OAuthToken>, grant: Result<TokenGrant, ApiError>, now: Instant)
    : (r: (Result<string, AuthError>, seq<OAuthToken>))
    ensures tokens == [] ==> r == (Err(NoAccessToken), tokens)
    ensures r.0.Err? ==> r.1 == tokens
  {
    if tokens == [] then (Err(NoAccessToken), tokens)
    else
      var last := tokens[|tokens| - 1];
      if Expired(last, now) then RefreshStep(tokens, last.refreshToken, grant, now)
      else (Ok(last.accessToken), tokens)
  }

  /** `get_access_token` on the store: reads the latest row and refreshes it when it has expired. */
  method GetAccessToken(db: Store, grant: Result<TokenGrant, ApiError>, now: Instant)
    returns (r: Result<string, AuthError>)
    modifies db`tokens
    ensures (r, db.tokens) == AccessTokenStep(old(db.tokens), grant, now)
  {
    if |db.tokens| == 0 {
      return Err(NoAccessToken);
    }
    var record := db.tokens[|db.tokens| - 1];
    if record.expiresAt.Some? && now >= record.expiresAt.value {
      r := RefreshAccessToken(db, record.refreshToken, grant, now);
      return;
    }
    r := Ok(record.accessToken);
  }

  /** `refresh_access_token` on the store: rewrites the latest row in place, or adds one. */
  method RefreshAccessToken(
    db: Store, refreshToken: Option<string>, grant: Result<TokenGrant, ApiError>, now: Instant)
    returns (r: Result<string, AuthError>)
    modifies db`tokens
    ensures (r, db.tokens) == RefreshStep(old(db.tokens), refreshToken, grant, now)
  {
    if refreshToken.None? || refreshToken.value == "" {
      return Err(NoRefreshToken);
    }
    if grant.Err? {
      return Err(TokenRequestFailed(grant.error));
    }
    var data := grant.value;
    var expiresAt := now + data.expiresIn * MicrosPerSecond;
    var kept := if data.refreshToken.Present? then data.refreshToken.value else refreshToken;
    if |db.tokens| > 0 {
      var record := db.tokens[|db.tokens| - 1];
      record := record.(accessToken := data.accessToken, refreshToken := kept, expiresAt := Some(expiresAt));
      db.tokens := db.tokens[..|db.tokens| - 1] + [record];
    } else {
      db.tokens := [OAuthToken(data.accessToken, kept, Some(expiresAt), DefaultTokenType, now)];
    }
    r := Ok(data.accessToken);
  }

  /** Only the latest row is consulted: rows before it affect neither the result nor themselves. */
  lemma OnlyLatestTokenMatters(
    older: seq<OAuthToken>, others: seq<OAuthToken>, last: OAuthToken,
    grant: Result<TokenGrant, ApiError>, now: Instant)
    ensures AccessTokenStep(older + [last], grant, now).0 == AccessTokenStep(others + [last], grant, now).0
    ensures AccessTokenStep(older + [last], grant, now).1[..|older|] == older
    ensures Latest(AccessTokenStep(older + [last], grant, now).1)
         == Latest(AccessTokenStep(others + [last], grant, now).1)
  {
    var a, b := older + [last], others + [last];
    assert a[|a| - 1] == last && a[..|a| - 1] == older;
    assert b[|b| - 1] == last && b[..|b| - 1] == others;
  }

  /** An unexpired token (no expiry, or `now` before it) is returned as stored and nothing changes. */
  lemma UnexpiredTokenIsReturned(tokens: seq<OAuthToken>, grant: Result<TokenGrant, ApiError>, now: Instant)
    requires tokens != [] && !Expired(tokens[|tokens| - 1], now)
    ensures AccessTokenStep(tokens, grant, now) == (Ok(tokens[|tokens| - 1].accessToken), tokens)
  {}

  /** An expired latest token is refreshed with the refresh token stored beside it. */
  lemma ExpiredTokenIsRefreshed(tokens: seq<OAuthToken>, grant: Result<TokenGrant, ApiError>, now: Instant)
    requires tokens != [] && Expired(tokens[|tokens| - 1], now)
    ensures AccessTokenStep(tokens, grant, now)
         == RefreshStep(tokens, tokens[|tokens| - 1].refreshToken, grant, now)
  {}

  /**
    The token exchange is attempted exactly when the latest token has expired: a failing
    exchange surfaces precisely then (given a refresh token to send).
  */
  lemma RefreshExactlyWhenExpired(tokens: seq<OAuthToken>, e: ApiError, now: Instant)
    requires tokens != [] && Truthy(tokens[|tokens| - 1].refreshToken)
    ensures AccessTokenStep(tokens, Err(e), now).0 == Err(TokenRequestFailed(e))
        <==> Expired(tokens[|tokens| - 1], now)
  {}

  /** Without a refresh token the refresh fails before any request and leaves the rows alone. */
  lemma RefreshNeedsRefreshToken(
    tokens: seq<OAuthToken>, refreshToken: Option<string>,
    grant: Result<TokenGrant, ApiError>, now: Instant)
    requires !Truthy(refreshToken)
    ensures RefreshStep(tokens, refreshToken, grant, now) == (Err(NoRefreshToken), tokens)
  {}

  /**
    A successful refresh returns the new access token and rewrites only the latest row: new
    access token, expiry `now + expires_in` seconds, and the returned refresh token if there is
    one, otherwise the one that was used. With no row, one is added.
  */
  lemma SuccessfulRefresh(tokens: seq<OAuthToken>, refreshToken: Option<string>, g: TokenGrant, now: Instant)
    requires Truthy(refreshToken)
    ensures var (r, after) := RefreshStep(tokens, refreshToken, Ok(g), now);
      && r == Ok(g.accessToken)
      && after != []
      && after[..|after| - 1] == (if tokens == [] then [] else tokens[..|tokens| - 1])
      && after[|after| - 1].accessToken == g.accessToken
      && after[|after| - 1].expiresAt == Some(now + g.expiresIn * MicrosPerSecond)
      && after[|after| - 1].refreshToken == (if g.refreshToken.Present? then g.refreshToken.value else refreshToken)
      && (tokens != [] ==> after[|after| - 1].createdAt == tokens[|tokens| - 1].createdAt)
  {
    var after := RefreshStep(tokens, refreshToken, Ok(g), now).1;
    if tokens != [] {
      assert after[..|after| - 1] == tokens[..|tokens| - 1];
    }
  }

  /**
    After a successful refresh that grants time, the next lookup before the new expiry returns
    the new access token without another refresh.
  */
  lemma RefreshedTokenIsUsed(
    tokens: seq<OAuthToken>, refreshToken: Option<string>, g: TokenGrant, now: Instant,
    later: Instant, next: Result<TokenGrant, ApiError>)
    requires Truthy(refreshToken)
    requires later < ExpiryAfter(now, g.expiresIn)
    ensures var after := RefreshStep(tokens, refreshToken, Ok(g), now).1;
      AccessTokenStep(after, next, later) == (Ok(g.accessToken), after)
  {
    SuccessfulRefresh(tokens, refreshToken, g, now);
  }
}
