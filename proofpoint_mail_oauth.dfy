/**
 * com.proofpoint.secureemailrelay.mail.OAuthHttpClient: the asynchronous
 * token cache.  ensureTokenAsync hands out one refresh future at a time;
 * callers arriving while it is outstanding get the same future.  When the
 * refresh completes the future is cleared, whatever the outcome.
 *
 * Futures are named by numbers: EnsureTokenAsync starts a refresh (or
 * returns the outstanding one) and CompleteRefresh is the completion event,
 * running parseTokenResponse and the whenComplete callback.  Unlike the
 * http-package clients, parseTokenResponse writes accessToken before it
 * checks it and writes tokenExpiration only on success, so a failed refresh
 * can leave the cache half updated.
 */
module ProofpointMailOAuth {
  import opened Wrappers
  import opened Errors
  import opened Java
  import opened Json
  import opened Http
  import opened OAuthCore

  /** The future ensureTokenAsync returns: already completed, or the refresh numbered id. */
  datatype Handle = Completed | Pending(id: nat)

  /** The User-Agent header every request of this client carries. */
  function UserAgent(): (string, string) {
    ("User-Agent", "Java-SER-API/1.0")
  }

  /** The token request: the shared form body, with a User-Agent header first. */
  function MailRefreshRequest(s: OAuthSettings): (r: HttpRequest)
    ensures r.verb == "POST" && r.uri == s.tokenEndpoint
    ensures r.body == OfString(FormBody(s.clientId, s.clientSecret, s.scope))
    ensures r.headers == [UserAgent()] + RefreshRequest(s).headers
  {
    RefreshRequest(s).(headers := [UserAgent()] + RefreshRequest(s).headers)
  }

  /** The exception a refresh fault surfaces as: parseTokenResponse's own, or the library's. */
  function ParseError(f: RefreshFault): (e: Error)
    ensures f == MissingAccessToken ==> e == IllegalState("OAuth token response did not contain an access token.")
    ensures f == MissingExpiration ==> e == IllegalState("OAuth token response is missing expiration details.")
    ensures f == IoFailure ==> e == TransportFailure
    ensures e.IllegalState? <==> f == MissingAccessToken || f == MissingExpiration
  {
    match f
    case MissingAccessToken => IllegalState("OAuth token response did not contain an access token.")
    case MissingExpiration => IllegalState("OAuth token response is missing expiration details.")
    case IoFailure => TransportFailure
    case _ => LibraryFailure(f)
  }

  predicate IsSupportedVerb(verb: string) {
    verb == "GET" || verb == "POST" || verb == "PUT" || verb == "DELETE"
  }

  class OAuthHttpClient {
    const settings: OAuthSettings
    var accessToken: Option<string>
    var tokenExpiration: Option<int>
    var tokenRefreshFuture: Option<nat>
    /** The number the next refresh future gets. */
    var nextFuture: nat

    predicate Valid()
      reads this
    {
      tokenRefreshFuture.Some? ==> tokenRefreshFuture.value < nextFuture
    }

    constructor (settings: OAuthSettings)
      ensures Valid()
      ensures this.settings == settings
      ensures accessToken.None? && tokenExpiration.None? && tokenRefreshFuture.None?
    {
      this.settings := settings;
      accessToken := None;
      tokenExpiration := None;
      tokenRefreshFuture := None;
      nextFuture := 0;
    }

    /** new OAuthHttpClient(...): the argument checks, then an empty cache and no refresh. */
    static method New(tokenEndpoint: Option<string>, clientId: Option<string>, clientSecret: Option<string>,
                      scope: Option<string>, tokenRefreshOffset: Int32, httpClientGiven: bool)
      returns (r: Result<OAuthHttpClient, Error>)
      ensures var s := NewSettings(tokenEndpoint, clientId, clientSecret, scope, tokenRefreshOffset, httpClientGiven);
        (r.Ok? <==> s.Ok?) && (r.Err? ==> r.error == s.error)
        && (r.Ok? ==> fresh(r.value) && r.value.Valid() && r.value.settings == s.value
                      && r.value.accessToken.None? && r.value.tokenRefreshFuture.None?)
    {
      var s := NewSettings(tokenEndpoint, clientId, clientSecret, scope, tokenRefreshOffset, httpClientGiven);
      if s.Err? {
        return Err(s.error);
      }
      var c := new OAuthHttpClient(s.value);
      return Ok(c);
    }

    /**
     * ensureTokenAsync: a valid token gives a completed future; otherwise the
     * outstanding refresh is shared, or a new one is started.  The cache
     * itself is not touched.
     */
    method EnsureTokenAsync(now: int) returns (h: Handle, tokenRequest: Option<HttpRequest>)
      requires Valid()
      modifies this
      ensures Valid()
      ensures accessToken == old(accessToken) && tokenExpiration == old(tokenExpiration)
      ensures IsValid(old(accessToken), old(tokenExpiration), now) ==>
        h == Completed && tokenRequest.None?
        && tokenRefreshFuture == old(tokenRefreshFuture) && nextFuture == old(nextFuture)
      ensures !IsValid(old(accessToken), old(tokenExpiration), now) && old(tokenRefreshFuture).Some? ==>
        h == Pending(old(tokenRefreshFuture).value) && tokenRequest.None?
        && tokenRefreshFuture == old(tokenRefreshFuture) && nextFuture == old(nextFuture)
      ensures !IsValid(old(accessToken), old(tokenExpiration), now) && old(tokenRefreshFuture).None? ==>
        h == Pending(old(nextFuture)) && tokenRefreshFuture == Some(old(nextFuture))
        && nextFuture == old(nextFuture) + 1 && tokenRequest == Some(MailRefreshRequest(settings))
      ensures h.Pending? ==> tokenRefreshFuture == Some(h.id)
    {
      if IsValid(accessToken, tokenExpiration, now) {
        return Completed, None;
      }
      if tokenRefreshFuture.Some? {
        return Pending(tokenRefreshFuture.value), None;
      }
      h := Pending(nextFuture);
      tokenRefreshFuture := Some(nextFuture);
      nextFuture := nextFuture + 1;
      tokenRequest := Some(MailRefreshRequest(settings));
    }

    /**
     * The outstanding refresh completes: the reply is parsed field by field
     * into the cache, then the future is cleared.  The result is the
     * failure the future completes with, if any.
     */
    method CompleteRefresh(clock: Clock, reply: TokenReply) returns (failure: Option<Error>)
      requires Valid() && tokenRefreshFuture.Some?
      modifies this
      ensures Valid()
      ensures tokenRefreshFuture.None? && nextFuture == old(nextFuture)
      ensures failure.Some? ==> failure.value.Completion? && failure.value.detail.None?
      ensures (reply.TransportError? || !reply.body.Object?) ==>
        accessToken == old(accessToken) && tokenExpiration == old(tokenExpiration)
      ensures reply.TransportError? ==> failure == Some(Completion(None, TransportFailure))
      ensures reply.Replied? && !reply.body.Object? ==> failure == Some(Completion(None, LibraryFailure(MalformedJson)))
      ensures reply.Replied? && reply.body.Object? ==>
        var members := reply.body.members;
        accessToken == GetString(members, "access_token")
        && (accessToken.None? ==>
              failure == Some(Completion(None, ParseError(MissingAccessToken)))
              && tokenExpiration == old(tokenExpiration))
        && (accessToken.Some? ==>
              match ReadExpiration(members, settings.tokenRefreshOffset, clock)
              case Ok(expiration) => failure.None? && tokenExpiration == Some(expiration)
              case Err(f) => failure == Some(Completion(None, ParseError(f))) && tokenExpiration == old(tokenExpiration))
      ensures failure.None? <==> RefreshOutcome(reply, settings.tokenRefreshOffset, clock).Ok?
      ensures failure.None? ==>
        accessToken == Some(RefreshOutcome(reply, settings.tokenRefreshOffset, clock).value.0)
        && tokenExpiration == Some(RefreshOutcome(reply, settings.tokenRefreshOffset, clock).value.1)
    {
      failure := None;
      match reply {
        case TransportError =>
          failure := Some(Completion(None, TransportFailure));
        case Replied(body) =>
          if !body.Object? {
            failure := Some(Completion(None, LibraryFailure(MalformedJson)));
          } else {
            accessToken := GetString(body.members, "access_token");
            if accessToken.None? {
              failure := Some(Completion(None, ParseError(MissingAccessToken)));
            } else {
              var expiration := ReadExpiration(body.members, settings.tokenRefreshOffset, clock);
              if expiration.Err? {
                failure := Some(Completion(None, ParseError(expiration.error)));
              } else {
                tokenExpiration := Some(expiration.value);
              }
            }
          }
      }
      tokenRefreshFuture := None;
    }

    /**
     * createRequestBuilder: User-Agent and the Bearer header (with "null"
     * for a missing token) always, Content-Type exactly when there is a
     * body, and the four supported methods.
     */
    function CreateRequestBuilder(requestUri: string, verb: string, body: Option<string>): (r: Result<HttpRequest, Error>)
      reads this
      ensures r.Ok? <==> IsSupportedVerb(verb) && ((verb == "POST" || verb == "PUT") ==> body.Some?)
      ensures !IsSupportedVerb(verb) ==> r == Err(IllegalArgument("Unsupported HTTP method: " + verb))
      ensures (verb == "POST" || verb == "PUT") && body.None? ==> r == Err(NullDereference)
      ensures r.Ok? ==>
        r.value.uri == requestUri && r.value.verb == verb
        && |r.value.headers| == (if body.Some? then 3 else 2)
        && r.value.headers[0] == UserAgent()
        && r.value.headers[1] == ("Authorization", ConcatNullable("Bearer ", accessToken))
        && (body.Some? ==> r.value.headers[2] == ("Content-Type", "application/json"))
        && r.value.body == (if verb == "POST" || verb == "PUT" then OfString(body.value) else Absent)
    {
      var headers := [UserAgent(), ("Authorization", ConcatNullable("Bearer ", accessToken))]
        + (if body.Some? then [("Content-Type", "application/json")] else []);
      if verb == "GET" || verb == "DELETE" then
        Ok(HttpRequest(requestUri, verb, Absent, headers, None, None, false))
      else if verb == "POST" || verb == "PUT" then
        if body.None? then Err(NullDereference)
        else Ok(HttpRequest(requestUri, verb, OfString(body.value), headers, None, None, false))
      else
        Err(IllegalArgument("Unsupported HTTP method: " + verb))
    }

    /**
     * What getAsync, postAsync, putAsync and deleteAsync do once the token
     * future completes: a failed future is passed on; otherwise the request
     * is built from the cache as it is then and sent.
     */
    method SendWhenReady(verb: string, requestUri: string, content: Option<string>,
                         tokenFailure: Option<Error>, transport: Option<HttpResponse>)
      returns (outcome: Result<HttpResponse, Error>, sent: Option<HttpRequest>)
      ensures tokenFailure.Some? ==> outcome == Err(tokenFailure.value) && sent.None?
      ensures tokenFailure.None? && CreateRequestBuilder(requestUri, verb, content).Err? ==>
        outcome == Err(Completion(None, CreateRequestBuilder(requestUri, verb, content).error)) && sent.None?
      ensures tokenFailure.None? && CreateRequestBuilder(requestUri, verb, content).Ok? ==>
        sent == Some(CreateRequestBuilder(requestUri, verb, content).value)
        && (transport.None? ==> outcome == Err(Completion(None, TransportFailure)))
        && (transport.Some? ==> outcome == Ok(transport.value))
    {
      if tokenFailure.Some? {
        return Err(tokenFailure.value), None;
      }
      var request := CreateRequestBuilder(requestUri, verb, content);
      if request.Err? {
        return Err(Completion(None, request.error)), None;
      }
      sent := Some(request.value);
      outcome := if transport.None? then Err(Completion(None, TransportFailure)) else Ok(transport.value);
    }

    method GetAsync(requestUri: string, tokenFailure: Option<Error>, transport: Option<HttpResponse>)
      returns (outcome: Result<HttpResponse, Error>, sent: Option<HttpRequest>)
      ensures tokenFailure.Some? ==> outcome == Err(tokenFailure.value) && sent.None?
      ensures tokenFailure.None? ==>
        sent == Some(HttpRequest(requestUri, "GET", Absent,
                                 [UserAgent(), ("Authorization", ConcatNullable("Bearer ", accessToken))],
                                 None, None, false))
      ensures tokenFailure.None? && transport.None? ==> outcome == Err(Completion(None, TransportFailure))
      ensures tokenFailure.None? && transport.Some? ==> outcome == Ok(transport.value)
    {
      outcome, sent := SendWhenReady("GET", requestUri, None, tokenFailure, transport);
      ghost var headers := [UserAgent(), ("Authorization", ConcatNullable("Bearer ", accessToken))];
      assert headers + [] == headers;
    }

    method PostAsync(requestUri: string, content: Option<string>, tokenFailure: Option<Error>,
                     transport: Option<HttpResponse>)
      returns (outcome: Result<HttpResponse, Error>, sent: Option<HttpRequest>)
      ensures tokenFailure.Some? ==> outcome == Err(tokenFailure.value) && sent.None?
      ensures tokenFailure.None? && content.None? ==> outcome == Err(Completion(None, NullDereference)) && sent.None?
      ensures tokenFailure.None? && content.Some? ==>
        sent == Some(HttpRequest(requestUri, "POST", OfString(content.value),
                                 [UserAgent(), ("Authorization", ConcatNullable("Bearer ", accessToken)),
                                  ("Content-Type", "application/json")],
                                 None, None, false))
      ensures tokenFailure.None? && content.Some? && transport.None? ==> outcome == Err(Completion(None, TransportFailure))
      ensures tokenFailure.None? && content.Some? && transport.Some? ==> outcome == Ok(transport.value)
    {
      outcome, sent := SendWhenReady("POST", requestUri, content, tokenFailure, transport);
      ghost var headers := [UserAgent(), ("Authorization", ConcatNullable("Bearer ", accessToken))];
      assert headers + [("Content-Type", "application/json")]
          == [UserAgent(), ("Authorization", ConcatNullable("Bearer ", accessToken)), ("Content-Type", "application/json")];
    }

    method PutAsync(requestUri: string, content: Option<string>, tokenFailure: Option<Error>,
                    transport: Option<HttpResponse>)
      returns (outcome: Result<HttpResponse, Error>, sent: Option<HttpRequest>)
      ensures tokenFailure.Some? ==> outcome == Err(tokenFailure.value) && sent.None?
      ensures tokenFailure.None? && content.None? ==> outcome == Err(Completion(None, NullDereference)) && sent.None?
      ensures tokenFailure.None? && content.Some? ==>
        sent == Some(HttpRequest(requestUri, "PUT", OfString(content.value),
                                 [UserAgent(), ("Authorization", ConcatNullable("Bearer ", accessToken)),
                                  ("Content-Type", "application/json")],
                                 None, None, false))
      ensures tokenFailure.None? && content.Some? && transport.None? ==> outcome == Err(Completion(None, TransportFailure))
      ensures tokenFailure.None? && content.Some? && transport.Some? ==> outcome == Ok(transport.value)
    {
      outcome, sent := SendWhenReady("PUT", requestUri, content, tokenFailure, transport);
      ghost var headers := [UserAgent(), ("Authorization", ConcatNullable("Bearer ", accessToken))];
      assert headers + [("Content-Type", "application/json")]
          == [UserAgent(), ("Authorization", ConcatNullable("Bearer ", accessToken)), ("Content-Type", "application/json")];
    }

    method DeleteAsync(requestUri: string, tokenFailure: Option<Error>, transport: Option<HttpResponse>)
      returns (outcome: Result<HttpResponse, Error>, sent: Option<HttpRequest>)
      ensures tokenFailure.Some? ==> outcome == Err(tokenFailure.value) && sent.None?
      ensures tokenFailure.None? ==>
        sent == Some(HttpRequest(requestUri, "DELETE", Absent,
                                 [UserAgent(), ("Authorization", ConcatNullable("Bearer ", accessToken))],
                                 None, None, false))
      ensures tokenFailure.None? && transport.None? ==> outcome == Err(Completion(None, TransportFailure))
      ensures tokenFailure.None? && transport.Some? ==> outcome == Ok(transport.value)
    {
      outcome, sent := SendWhenReady("DELETE", requestUri, None, tokenFailure, transport);
      ghost var headers := [UserAgent(), ("Authorization", ConcatNullable("Bearer ", accessToken))];
      assert headers + [] == headers;
    }

    /**
     * sendAsync(request): the caller's request is not used.  The request
     * built in its place has no URI, so building it throws and nothing is
     * ever sent.
     */
    method SendAsync(request: HttpRequest, tokenFailure: Option<Error>)
      returns (outcome: Result<HttpResponse, Error>, sent: Option<HttpRequest>)
      ensures sent.None? && outcome.Err?
      ensures tokenFailure.Some? ==> outcome == Err(tokenFailure.value)
      ensures tokenFailure.None? ==> outcome == Err(Completion(None, IllegalState("uri is null")))
    {
      if tokenFailure.Some? {
        return Err(tokenFailure.value), None;
      }
      return Err(Completion(None, IllegalState("uri is null"))), None;
    }
  }

  /**
   * Callers that find the cache invalid while a refresh is outstanding all
   * wait on that refresh: two calls start one token request between them.
   */
  method ConcurrentCallersShareRefresh(c: OAuthHttpClient, now: int)
    returns (first: Handle, second: Handle, firstRequest: Option<HttpRequest>, secondRequest: Option<HttpRequest>)
    requires c.Valid() && !IsValid(c.accessToken, c.tokenExpiration, now)
    modifies c
    ensures c.Valid()
    ensures first.Pending? && first == second
    ensures secondRequest.None?
    ensures old(c.tokenRefreshFuture).None? ==> firstRequest == Some(MailRefreshRequest(c.settings))
  {
    first, firstRequest := c.EnsureTokenAsync(now);
    second, secondRequest := c.EnsureTokenAsync(now);
  }

  /** A failed refresh clears the future, so the next caller starts a new refresh. */
  method FailedRefreshIsRetriedByNextCaller(c: OAuthHttpClient, now: int, clock: Clock)
    returns (failure: Option<Error>, again: Handle, request: Option<HttpRequest>)
    requires c.Valid() && !IsValid(c.accessToken, c.tokenExpiration, now)
    modifies c
    ensures c.Valid()
    ensures failure.Some? && again.Pending? && request == Some(MailRefreshRequest(c.settings))
  {
    var h, r := c.EnsureTokenAsync(now);
    failure := c.CompleteRefresh(clock, TransportError);
    again, request := c.EnsureTokenAsync(now);
  }

  /**
   * The partial update, as written: a reply with a token but no expiry fails,
   * yet the new token stays, paired with whatever expiry the cache held.
   * From a cache holding no token and an expiry still in the future, that
   * failed refresh leaves a cache the next caller treats as valid.
   */
  method NewTokenKeepsOldExpiry(c: OAuthHttpClient, clock: Clock, token: string)
    returns (failure: Option<Error>)
    requires c.Valid() && c.tokenRefreshFuture.None?
    requires c.accessToken.None? && c.tokenExpiration.Some? && clock.now < c.tokenExpiration.value
    modifies c
    ensures c.Valid()
    ensures failure == Some(Completion(None, IllegalState("OAuth token response is missing expiration details.")))
    ensures c.accessToken == Some(token) && c.tokenExpiration == old(c.tokenExpiration)
    ensures IsValid(c.accessToken, c.tokenExpiration, clock.now)
  {
    var h, r := c.EnsureTokenAsync(clock.now);
    var noExpiry: map<string, JsonValue> := map["access_token" := JString(token)];
    failure := c.CompleteRefresh(clock, Replied(Object(noExpiry)));
  }

  /**
   * A failed refresh leaves a usable cache only in that case: the old
   * expiry is kept and the cache held no token before.
   */
  method FailedRefreshValidOnlyWithOldExpiry(c: OAuthHttpClient, clock: Clock, reply: TokenReply)
    returns (failure: Option<Error>)
    requires c.Valid() && c.tokenRefreshFuture.None? && !IsValid(c.accessToken, c.tokenExpiration, clock.now)
    modifies c
    ensures c.Valid() && c.tokenRefreshFuture.None?
    ensures failure.Some? && IsValid(c.accessToken, c.tokenExpiration, clock.now) ==>
      c.tokenExpiration == old(c.tokenExpiration) && old(c.accessToken).None?
  {
    var h, r := c.EnsureTokenAsync(clock.now);
    failure := c.CompleteRefresh(clock, reply);
  }
}
