/**
 * io.pfpt.ser.http.OAuthHttpClient: a token cache in front of an HTTP
 * client.  ensureToken refreshes only when the cached token is not valid;
 * a refresh writes the token and its expiry together and only when both
 * were read; sendAsync sends a copy of the caller's request carrying the
 * current Bearer token.
 *
 * The lock and the atomic references only order these steps between
 * threads; each call is modelled as one sequential step.  The token
 * endpoint's reply and the transport's outcome are parameters.
 */
module OAuthHttp {
  import opened Wrappers
  import opened Errors
  import opened Java
  import opened Http
  import opened OAuthCore

  class OAuthHttpClient {
    const settings: OAuthSettings
    var accessToken: Option<string>
    var tokenExpiration: Option<int>

    /** The two fields are only ever written together, so they are set together. */
    predicate Valid()
      reads this
    {
      accessToken.Some? == tokenExpiration.Some?
    }

    constructor (settings: OAuthSettings)
      ensures Valid()
      ensures this.settings == settings && accessToken.None? && tokenExpiration.None?
    {
      this.settings := settings;
      accessToken := None;
      tokenExpiration := None;
    }

    /** new OAuthHttpClient(...): the argument checks, then an empty cache. */
    static method New(tokenEndpoint: Option<string>, clientId: Option<string>, clientSecret: Option<string>,
                      scope: Option<string>, tokenRefreshOffset: Int32, httpClientGiven: bool)
      returns (r: Result<OAuthHttpClient, Error>)
      ensures var s := NewSettings(tokenEndpoint, clientId, clientSecret, scope, tokenRefreshOffset, httpClientGiven);
        (r.Ok? <==> s.Ok?) && (r.Err? ==> r.error == s.error)
        && (r.Ok? ==> fresh(r.value) && r.value.Valid() && r.value.settings == s.value
                      && r.value.accessToken.None? && r.value.tokenExpiration.None?)
    {
      var s := NewSettings(tokenEndpoint, clientId, clientSecret, scope, tokenRefreshOffset, httpClientGiven);
      if s.Err? {
        return Err(s.error);
      }
      var c := new OAuthHttpClient(s.value);
      return Ok(c);
    }

    /**
     * refreshToken: posts the credentials and reads the reply.  On success
     * both fields take the new values; on any failure neither changes and
     * the fault is reported by the catch clause that wraps it.
     */
    method RefreshToken(clock: Clock, reply: TokenReply) returns (err: Option<Error>, tokenRequest: HttpRequest)
      requires Valid()
      modifies this
      ensures Valid()
      ensures tokenRequest == RefreshRequest(settings)
      ensures match RefreshOutcome(reply, settings.tokenRefreshOffset, clock)
        case Ok(got) =>
          err.None? && accessToken == Some(got.0) && tokenExpiration == Some(got.1)
        case Err(f) =>
          err == Some(RefreshError(f))
          && accessToken == old(accessToken) && tokenExpiration == old(tokenExpiration)
    {
      tokenRequest := RefreshRequest(settings);
      var outcome := RefreshOutcome(reply, settings.tokenRefreshOffset, clock);
      if outcome.Err? {
        return Some(RefreshError(outcome.error)), tokenRequest;
      }
      accessToken := Some(outcome.value.0);
      tokenExpiration := Some(outcome.value.1);
      err := None;
    }

    /**
     * ensureToken: nothing happens while the cached token is valid; otherwise
     * exactly one refresh is attempted, with no retry.
     */
    method EnsureToken(clock: Clock, reply: TokenReply) returns (err: Option<Error>, tokenRequest: Option<HttpRequest>)
      requires Valid()
      modifies this
      ensures Valid()
      ensures IsValid(old(accessToken), old(tokenExpiration), clock.now) ==>
        err.None? && tokenRequest.None? && accessToken == old(accessToken) && tokenExpiration == old(tokenExpiration)
      ensures !IsValid(old(accessToken), old(tokenExpiration), clock.now) ==>
        tokenRequest == Some(RefreshRequest(settings))
        && match RefreshOutcome(reply, settings.tokenRefreshOffset, clock)
           case Ok(got) => err.None? && accessToken == Some(got.0) && tokenExpiration == Some(got.1)
           case Err(f) =>
             err == Some(RefreshError(f))
             && accessToken == old(accessToken) && tokenExpiration == old(tokenExpiration)
      ensures err.None? ==> accessToken.Some?
    {
      if IsValid(accessToken, tokenExpiration, clock.now) {
        return None, None;
      }
      var request;
      err, request := RefreshToken(clock, reply);
      tokenRequest := Some(request);
    }

    /**
     * sendAsync: a failed refresh gives an already-failed future and sends
     * nothing; otherwise the copy of the request with the Bearer header is
     * sent, and a transport failure names the caller's method and URI.
     */
    method SendAsync(request: HttpRequest, clock: Clock, reply: TokenReply, transport: Option<HttpResponse>)
      returns (outcome: Result<HttpResponse, Error>, tokenRequest: Option<HttpRequest>, sent: Option<HttpRequest>)
      requires Valid()
      modifies this
      ensures Valid()
      ensures sent.None? <==> outcome.Err? && outcome.error.HttpRequestFailure?
      ensures sent.None? ==>
        !IsValid(old(accessToken), old(tokenExpiration), clock.now)
        && RefreshOutcome(reply, settings.tokenRefreshOffset, clock).Err?
        && outcome == Err(HttpRequestFailure("Failed to refresh token before sending request",
                                             RefreshError(RefreshOutcome(reply, settings.tokenRefreshOffset, clock).error)))
      ensures sent.Some? ==>
        accessToken.Some? && sent.value == Authorized(Copied(request), accessToken.value)
        && AuthorizationValues(sent.value.headers) == ["Bearer " + accessToken.value]
      ensures sent.Some? && transport.None? ==>
        outcome == Err(Completion(Some("Asynchronous request failed: " + request.verb + " " + request.uri), TransportFailure))
      ensures sent.Some? && transport.Some? ==> outcome == Ok(transport.value)
      ensures tokenRequest.Some? <==> !IsValid(old(accessToken), old(tokenExpiration), clock.now)
      ensures IsValid(old(accessToken), old(tokenExpiration), clock.now) ==>
        sent.Some? && accessToken == old(accessToken) && tokenExpiration == old(tokenExpiration)
      ensures !IsValid(old(accessToken), old(tokenExpiration), clock.now) ==>
        match RefreshOutcome(reply, settings.tokenRefreshOffset, clock)
        case Ok(got) => accessToken == Some(got.0) && tokenExpiration == Some(got.1)
        case Err(_) => accessToken == old(accessToken) && tokenExpiration == old(tokenExpiration)
    {
      var err;
      err, tokenRequest := EnsureToken(clock, reply);
      if err.Some? {
        return Err(HttpRequestFailure("Failed to refresh token before sending request", err.value)), tokenRequest, None;
      }
      var copy := CopyRequest(request);
      var authorized := Authorized(copy, accessToken.value);
      AuthorizedCarriesOneBearer(request, accessToken.value);
      sent := Some(authorized);
      if transport.None? {
        outcome := Err(Completion(Some("Asynchronous request failed: " + request.verb + " " + request.uri), TransportFailure));
      } else {
        outcome := Ok(transport.value);
      }
    }
  }

  /**
   * Two sends in a row at the same instant: when the first leaves a token
   * that is valid at that instant, the second sends without refreshing.
   */
  method SecondSendReusesToken(c: OAuthHttpClient, first: HttpRequest, second: HttpRequest,
                               clock: Clock, reply: TokenReply, transport: Option<HttpResponse>)
    returns (validAfterFirst: bool, secondRefresh: Option<HttpRequest>, secondSent: Option<HttpRequest>)
    requires c.Valid()
    modifies c
    ensures c.Valid()
    ensures validAfterFirst ==> secondRefresh.None? && secondSent.Some?
    ensures IsValid(old(c.accessToken), old(c.tokenExpiration), clock.now) ==> validAfterFirst
  {
    var outcome, tokenRequest, sent := c.SendAsync(first, clock, reply, transport);
    validAfterFirst := IsValid(c.accessToken, c.tokenExpiration, clock.now);
    outcome, secondRefresh, secondSent := c.SendAsync(second, clock, reply, transport);
  }
}
