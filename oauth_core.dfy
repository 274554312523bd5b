/**
 * What the three OAuthHttpClient classes share: the constructor checks, the
 * validity of the cached token, the client-credentials token request, the
 * reading of the token endpoint's reply, and the copy of a caller's request
 * with its Authorization headers replaced by one Bearer header.
 *
 * Time is a whole number of seconds.  The clock reading and the ISO-8601
 * parser (Instant.now and Instant.parse) are inputs; the token endpoint's
 * reply is an input too.
 */
module OAuthCore {
  import opened Wrappers
  import opened Errors
  import opened Java
  import opened Json
  import opened Http

  /** Instant.now(), and Instant.parse as a partial function on text. */
  datatype Clock = Clock(now: int, parseInstant: string -> Option<int>)

  /** What httpClient.send made of the token request: an I/O failure or a body read as JSON. */
  datatype TokenReply = TransportError | Replied(body: JsonDocument)

  datatype OAuthSettings = OAuthSettings(
    tokenEndpoint: string,
    clientId: string,
    clientSecret: string,
    scope: string,
    tokenRefreshOffset: nat)

  /**
   * The six-argument constructor: four null checks on the strings, one on the
   * HTTP client, then the offset, which may be 0 but not negative.
   */
  function NewSettings(tokenEndpoint: Option<string>, clientId: Option<string>, clientSecret: Option<string>,
                       scope: Option<string>, tokenRefreshOffset: Int32, httpClientGiven: bool)
    : (r: Result<OAuthSettings, Error>)
    ensures r.Ok? <==>
      tokenEndpoint.Some? && clientId.Some? && clientSecret.Some? && scope.Some? && httpClientGiven
      && tokenRefreshOffset >= 0
    ensures tokenEndpoint.None? ==> r == Err(NullPointer("Token endpoint must not be null."))
    ensures tokenEndpoint.Some? && clientId.None? ==> r == Err(NullPointer("Client ID must not be null."))
    ensures tokenEndpoint.Some? && clientId.Some? && clientSecret.None? ==>
      r == Err(NullPointer("Client Secret must not be null."))
    ensures tokenEndpoint.Some? && clientId.Some? && clientSecret.Some? && scope.None? ==>
      r == Err(NullPointer("Scope must not be null."))
    ensures tokenEndpoint.Some? && clientId.Some? && clientSecret.Some? && scope.Some? && !httpClientGiven ==>
      r == Err(NullPointer("HttpClient must not be null."))
    ensures (tokenEndpoint.Some? && clientId.Some? && clientSecret.Some? && scope.Some? && httpClientGiven
             && tokenRefreshOffset < 0) ==>
      r == Err(IllegalArgument("Token refresh offset must be a positive number."))
    ensures r.Ok? ==>
      r.value == OAuthSettings(tokenEndpoint.value, clientId.value, clientSecret.value, scope.value, tokenRefreshOffset)
  {
    if tokenEndpoint.None? then Err(NullPointer("Token endpoint must not be null."))
    else if clientId.None? then Err(NullPointer("Client ID must not be null."))
    else if clientSecret.None? then Err(NullPointer("Client Secret must not be null."))
    else if scope.None? then Err(NullPointer("Scope must not be null."))
    else if !httpClientGiven then Err(NullPointer("HttpClient must not be null."))
    else if tokenRefreshOffset < 0 then Err(IllegalArgument("Token refresh offset must be a positive number."))
    else Ok(OAuthSettings(tokenEndpoint.value, clientId.value, clientSecret.value, scope.value, tokenRefreshOffset))
  }

  /** The cached token may be used: both fields set and the expiry strictly in the future. */
  predicate IsValid(token: Option<string>, expiration: Option<int>, now: int) {
    token.Some? && expiration.Some? && now < expiration.value
  }

  /**
   * The expiry of a fresh token.  token_expires_date_time wins over
   * expires_in; the absolute time is moved back by the offset, the relative
   * one is read with getInt() and reduced by the offset in int arithmetic.
   */
  function ReadExpiration(members: map<string, JsonValue>, offset: nat, clock: Clock): (r: Result<int, RefreshFault>)
    ensures r.Err? ==> r.error == MissingExpiration || r.error == WrongValueType || r.error == UnparsableInstant
    ensures r == Err(MissingExpiration) <==> "token_expires_date_time" !in members && "expires_in" !in members
    ensures "token_expires_date_time" in members ==>
      match members["token_expires_date_time"]
      case JString(text) =>
        if clock.parseInstant(text).Some? then r == Ok(clock.parseInstant(text).value - offset)
        else r == Err(UnparsableInstant)
      case _ => r == Err(WrongValueType)
    ensures "token_expires_date_time" !in members && "expires_in" in members ==>
      match members["expires_in"]
      case JNumber(n) => r == Ok(clock.now + Wrap32(Wrap32(n) - offset))
      case _ => r == Err(WrongValueType)
  {
    if "token_expires_date_time" in members then
      match members["token_expires_date_time"]
      case JString(text) =>
        (match clock.parseInstant(text)
         case Some(instant) => Ok(instant - offset)
         case None => Err(UnparsableInstant))
      case _ => Err(WrongValueType)
    else if "expires_in" in members then
      match members["expires_in"]
      case JNumber(n) => Ok(clock.now + Wrap32(Wrap32(n) - offset))
      case _ => Err(WrongValueType)
    else
      Err(MissingExpiration)
  }

  /** The reply body read as a JSON object: a string access_token, then an expiry. */
  function ParseTokenReply(doc: JsonDocument, offset: nat, clock: Clock): (r: Result<(string, int), RefreshFault>)
    ensures !doc.Object? ==> r == Err(MalformedJson)
    ensures doc.Object? && GetString(doc.members, "access_token").None? ==> r == Err(MissingAccessToken)
    ensures r.Ok? <==>
      doc.Object? && GetString(doc.members, "access_token").Some? && ReadExpiration(doc.members, offset, clock).Ok?
    ensures r.Ok? ==>
      r.value.0 == GetString(doc.members, "access_token").value
      && r.value.1 == ReadExpiration(doc.members, offset, clock).value
    ensures doc.Object? && GetString(doc.members, "access_token").Some? && r.Err? ==>
      r.error == ReadExpiration(doc.members, offset, clock).error
  {
    match doc
    case Object(members) =>
      (match GetString(members, "access_token")
       case None => Err(MissingAccessToken)
       case Some(token) =>
         match ReadExpiration(members, offset, clock)
         case Ok(expiration) => Ok((token, expiration))
         case Err(f) => Err(f))
    case _ => Err(MalformedJson)
  }

  /** One refresh attempt, from the transport's outcome to a token and its expiry. */
  function RefreshOutcome(reply: TokenReply, offset: nat, clock: Clock): (r: Result<(string, int), RefreshFault>)
    ensures reply.TransportError? ==> r == Err(IoFailure)
    ensures reply.Replied? ==> r == ParseTokenReply(reply.body, offset, clock)
    ensures r.Err? && r.error == IoFailure ==> reply.TransportError?
  {
    match reply
    case TransportError => Err(IoFailure)
    case Replied(body) => ParseTokenReply(body, offset, clock)
  }

  /**
   * The catch clause that wraps a fault: IOException, JsonParsingException,
   * or Exception, which also catches refreshToken's own exceptions.
   */
  function StageOf(f: RefreshFault): (s: RefreshStage)
    ensures s == SendFailed <==> f == IoFailure
    ensures s == ParseFailed <==> f == MalformedJson
  {
    match f
    case IoFailure => SendFailed
    case MalformedJson => ParseFailed
    case _ => Unexpected
  }

  /** The message of the HttpTokenRefreshException each catch clause throws. */
  function StageMessage(s: RefreshStage): string {
    match s
    case SendFailed => "Failed to send HTTP request for OAuth token."
    case ParseFailed => "Failed to parse JSON response for OAuth token."
    case Unexpected => "Unexpected error during OAuth token refresh."
  }

  function RefreshError(f: RefreshFault): Error {
    TokenRefresh(StageOf(f), f)
  }

  /** The form body of the token request; nothing in it is percent-encoded. */
  function FormBody(clientId: string, clientSecret: string, scope: string): string {
    "grant_type=client_credentials&client_id=" + clientId + "&client_secret=" + clientSecret + "&scope=" + scope
  }

  /** The token request of the two http-package clients. */
  function RefreshRequest(s: OAuthSettings): HttpRequest {
    HttpRequest(s.tokenEndpoint, "POST", OfString(FormBody(s.clientId, s.clientSecret, s.scope)),
                [("Content-Type", "application/x-www-form-urlencoded")], None, None, false)
  }

  /**
   * Two different credential triples can produce the same form body: a
   * secret holding "&scope=" cannot be told apart from a scope.
   */
  lemma FormBodyAmbiguous()
    ensures FormBody("a", "b&scope=c", "") == FormBody("a", "b", "c&scope=")
  {
  }

  /** If a and a' hold no '&', a + "&" + x == a' + "&" + y splits the same way. */
  lemma SplitAtFirstAmpersand(a: string, x: string, a': string, y: string)
    requires '&' !in a && '&' !in a'
    requires a + "&" + x == a' + "&" + y
    ensures a == a' && x == y
  {
    var s := a + "&" + x;
    var s' := a' + "&" + y;
    assert s[|a|] == '&' && s'[|a'|] == '&';
    assert forall k :: 0 <= k < |a| ==> s[k] == a[k] && s[k] != '&';
    assert forall k :: 0 <= k < |a'| ==> s'[k] == a'[k] && s'[k] != '&';
    assert |a| == |a'|;
    assert a == s[..|a|] == a';
    assert x == s[|a| + 1..] == y;
  }

  /** Equal strings with a common prefix have equal remainders. */
  lemma DropPrefix(p: string, u: string, v: string)
    requires p + u == p + v
    ensures u == v
  {
    assert u == (p + u)[|p|..];
  }

  /**
   * Without '&' in the client id and secret, the form body determines all
   * three credentials.
   */
  lemma FormBodyDeterminesCredentials(id: string, secret: string, scope: string,
                                      id': string, secret': string, scope': string)
    requires '&' !in id && '&' !in secret && '&' !in id' && '&' !in secret'
    requires FormBody(id, secret, scope) == FormBody(id', secret', scope')
    ensures id == id' && secret == secret' && scope == scope'
  {
    var tail, tail' := "scope=" + scope, "scope=" + scope';
    var rest, rest' := "client_secret=" + (secret + "&" + tail), "client_secret=" + (secret' + "&" + tail');
    var prefix := "grant_type=client_credentials&client_id=";
    assert FormBody(id, secret, scope) == prefix + (id + "&" + rest);
    assert FormBody(id', secret', scope') == prefix + (id' + "&" + rest');
    DropPrefix(prefix, id + "&" + rest, id' + "&" + rest');
    SplitAtFirstAmpersand(id, rest, id', rest');
    DropPrefix("client_secret=", secret + "&" + tail, secret' + "&" + tail');
    SplitAtFirstAmpersand(secret, tail, secret', tail');
    DropPrefix("scope=", scope, scope');
  }

  /** A header name copyRequest drops: "Authorization" in any letter case. */
  predicate IsAuthorization(name: string) {
    EqualsIgnoreCase(name, "Authorization")
  }

  /** The header list with every Authorization header removed, the rest in order. */
  function WithoutAuthorization(hs: seq<(string, string)>): (r: seq<(string, string)>)
    ensures |r| <= |hs|
    ensures forall i :: 0 <= i < |r| ==> !IsAuthorization(r[i].0) && r[i] in hs
  {
    if hs == [] then []
    else
      var rest := WithoutAuthorization(hs[..|hs| - 1]);
      if IsAuthorization(hs[|hs| - 1].0) then rest else rest + [hs[|hs| - 1]]
  }

  /** The values of the Authorization headers, in order. */
  function AuthorizationValues(hs: seq<(string, string)>): seq<string> {
    if hs == [] then []
    else
      var rest := AuthorizationValues(hs[..|hs| - 1]);
      if IsAuthorization(hs[|hs| - 1].0) then rest + [hs[|hs| - 1].1] else rest
  }

  lemma {:induction false} WithoutAuthorizationAppend(a: seq<(string, string)>, b: seq<(string, string)>)
    ensures WithoutAuthorization(a + b) == WithoutAuthorization(a) + WithoutAuthorization(b)
    decreases |b|
  {
    if b == [] {
      assert a + b == a;
    } else {
      var b0 := b[..|b| - 1];
      WithoutAuthorizationAppend(a, b0);
      assert (a + b)[..|a + b| - 1] == a + b0;
    }
  }

  /** Every header that is not an Authorization header survives the copy. */
  lemma {:induction false} KeepsOtherHeaders(hs: seq<(string, string)>, i: int)
    requires 0 <= i < |hs| && !IsAuthorization(hs[i].0)
    ensures hs[i] in WithoutAuthorization(hs)
    decreases |hs|
  {
    if i < |hs| - 1 {
      KeepsOtherHeaders(hs[..|hs| - 1], i);
    }
  }

  /** Stripping twice strips nothing more. */
  lemma {:induction false} WithoutAuthorizationIdempotent(hs: seq<(string, string)>)
    ensures WithoutAuthorization(WithoutAuthorization(hs)) == WithoutAuthorization(hs)
    decreases |hs|
  {
    if hs != [] {
      var rest := WithoutAuthorization(hs[..|hs| - 1]);
      WithoutAuthorizationIdempotent(hs[..|hs| - 1]);
      if !IsAuthorization(hs[|hs| - 1].0) {
        WithoutAuthorizationAppend(rest, [hs[|hs| - 1]]);
      }
    }
  }

  lemma {:induction false} NoAuthorizationLeft(hs: seq<(string, string)>)
    ensures AuthorizationValues(WithoutAuthorization(hs)) == []
    decreases |hs|
  {
    if hs != [] {
      var rest := WithoutAuthorization(hs[..|hs| - 1]);
      NoAuthorizationLeft(hs[..|hs| - 1]);
      if !IsAuthorization(hs[|hs| - 1].0) {
        var r := rest + [hs[|hs| - 1]];
        assert r[..|r| - 1] == rest;
      }
    }
  }

  /** copyRequest: the same request with noBody() for a missing body and without Authorization headers. */
  function Copied(original: HttpRequest): (r: HttpRequest)
    ensures r.uri == original.uri && r.verb == original.verb
    ensures r.timeout == original.timeout && r.version == original.version
    ensures r.expectContinue == original.expectContinue
    ensures r.body == if original.body.Absent? then NoBody else original.body
    ensures r.headers == WithoutAuthorization(original.headers)
  {
    original.(body := if original.body.Absent? then NoBody else original.body,
              headers := WithoutAuthorization(original.headers))
  }

  /** The Bearer header sendAsync adds to the copy. */
  function Authorized(request: HttpRequest, token: string): HttpRequest {
    request.(headers := request.headers + [("Authorization", "Bearer " + token)])
  }

  /** The request sendAsync passes on carries exactly one Authorization header, the Bearer token. */
  lemma AuthorizedCarriesOneBearer(request: HttpRequest, token: string)
    ensures AuthorizationValues(Authorized(Copied(request), token).headers) == ["Bearer " + token]
  {
    var hs := Authorized(Copied(request), token).headers;
    var stripped := WithoutAuthorization(request.headers);
    NoAuthorizationLeft(request.headers);
    assert hs[..|hs| - 1] == stripped;
    assert IsAuthorization(hs[|hs| - 1].0);
  }

  /**
   * copyRequest's header loop: each header of the original is added to the
   * new builder unless its name is Authorization in some letter case.
   */
  method CopyRequest(original: HttpRequest) returns (copy: HttpRequest)
    ensures copy == Copied(original)
  {
    var body := if original.body.Absent? then NoBody else original.body;
    var kept: seq<(string, string)> := [];
    var i := 0;
    while i < |original.headers|
      invariant 0 <= i <= |original.headers|
      invariant kept == WithoutAuthorization(original.headers[..i])
    {
      var h := original.headers[i];
      assert original.headers[..i + 1][..i] == original.headers[..i];
      if !IsAuthorization(h.0) {
        kept := kept + [h];
      }
      i := i + 1;
    }
    assert original.headers[..i] == original.headers;
    copy := HttpRequest(original.uri, original.verb, body, kept, original.timeout, original.version,
                        original.expectContinue);
  }

  /**
   * A token whose expires_in does not exceed the refresh offset is stored
   * already expired: the next call refreshes again.
   */
  lemma ShortLivedTokenAlreadyExpired(members: map<string, JsonValue>, offset: Int32, clock: Clock, n: int)
    requires offset >= 0 && 0 <= n <= offset
    requires "token_expires_date_time" !in members && "expires_in" in members && members["expires_in"] == JNumber(n)
    ensures ReadExpiration(members, offset, clock).Ok?
    ensures ReadExpiration(members, offset, clock).value <= clock.now
    ensures !IsValid(Some("token"), Some(ReadExpiration(members, offset, clock).value), clock.now)
  {
    assert Wrap32(n) == n;
    assert Wrap32(n - offset) == n - offset;
  }

  /** A lifetime longer than the offset gives a token valid now and until now + lifetime - offset. */
  lemma LongLivedTokenValid(members: map<string, JsonValue>, offset: Int32, clock: Clock, n: Int32)
    requires 0 <= offset < n
    requires "token_expires_date_time" !in members && "expires_in" in members && members["expires_in"] == JNumber(n)
    ensures ReadExpiration(members, offset, clock) == Ok(clock.now + n - offset)
    ensures IsValid(Some("token"), Some(clock.now + n - offset), clock.now)
  {
    assert Wrap32(n) == n;
    assert Wrap32(n - offset) == n - offset;
  }

  /** An absolute expiry is used whenever present, whatever expires_in says. */
  lemma AbsoluteExpiryTakesPrecedence(members: map<string, JsonValue>, offset: nat, clock: Clock, text: string, n: int)
    requires "token_expires_date_time" in members && members["token_expires_date_time"] == JString(text)
    requires clock.parseInstant(text).Some?
    ensures ReadExpiration(members, offset, clock) == Ok(clock.parseInstant(text).value - offset)
    ensures ReadExpiration(members["expires_in" := JNumber(n)], offset, clock)
         == ReadExpiration(members, offset, clock)
  {
  }
}
