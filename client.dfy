/**
 * io.pfpt.ser.mail.Client: the entry point.  The constructor checks its
 * arguments and sets up the token cache for the chosen region; send
 * serializes a message, posts it to the region's send endpoint through the
 * token cache, and reads the reply as a SendResult.
 *
 * JSON-B serialization is an input (None when it throws), and so are the
 * token endpoint's reply, the transport's outcome and the JSON parser.
 */
module Clients {
  import opened Wrappers
  import opened Errors
  import opened Java
  import opened Json
  import opened Http
  import opened Regions
  import opened OAuthCore
  import opened OAuthHttp
  import opened Messages
  import opened SendResults

  function TokenEndpoint(region: Region): string {
    "https://" + Host(region) + "/v1/token"
  }

  function SendEndpoint(region: Region): string {
    "https://" + Host(region) + "/v1/send"
  }

  /** The request send builds: a JSON POST to the send endpoint. */
  function SendRequest(endpoint: string, json: string): HttpRequest {
    HttpRequest(endpoint, "POST", OfString(json), [("Content-Type", "application/json")], None, None, false)
  }

  /**
   * A failure passed on to a dependent stage is wrapped in a
   * CompletionException unless it already is one.
   */
  function Propagated(e: Error): (r: Error)
    ensures r.Completion?
    ensures e.Completion? ==> r == e
  {
    if e.Completion? then e else Completion(None, e)
  }

  /** Different regions get different token endpoints. */
  lemma TokenEndpointDeterminesRegion(a: Region, b: Region)
    requires TokenEndpoint(a) == TokenEndpoint(b)
    ensures a == b
  {
    var ta, tb := TokenEndpoint(a), TokenEndpoint(b);
    assert Host(a) == ta[8..|ta| - 9];
    assert Host(b) == tb[8..|tb| - 9];
    HostDeterminesRegion(a, b);
  }

  /** Different regions get different send endpoints. */
  lemma SendEndpointDeterminesRegion(a: Region, b: Region)
    requires SendEndpoint(a) == SendEndpoint(b)
    ensures a == b
  {
    var sa, sb := SendEndpoint(a), SendEndpoint(b);
    assert Host(a) == sa[8..|sa| - 8];
    assert Host(b) == sb[8..|sb| - 8];
    HostDeterminesRegion(a, b);
  }

  /** The token cache's constructor cannot fail once the client's own checks passed. */
  lemma InitializationCannotFail(region: Region, clientId: string, clientSecret: string)
    ensures NewSettings(Some(TokenEndpoint(region)), Some(clientId), Some(clientSecret), Some(""), 300, true)
         == Ok(OAuthSettings(TokenEndpoint(region), clientId, clientSecret, "", 300))
  {
  }

  /** Copying the send request for authorization keeps its body and its Content-Type header. */
  lemma SentRequestKeepsJson(endpoint: string, json: string, token: string)
    ensures var sent := Authorized(Copied(SendRequest(endpoint, json)), token);
      sent.uri == endpoint && sent.verb == "POST" && sent.body == OfString(json)
      && sent.headers == [("Content-Type", "application/json"), ("Authorization", "Bearer " + token)]
  {
    var hs := [("Content-Type", "application/json")];
    assert !EqualsIgnoreCase("Content-Type", "Authorization");
    assert hs[..0] == [];
  }

  class Client {
    const httpClient: OAuthHttpClient
    const region: Region

    constructor (httpClient: OAuthHttpClient, region: Region)
      ensures this.httpClient == httpClient && this.region == region
    {
      this.httpClient := httpClient;
      this.region := region;
    }

    /**
     * new Client(clientId, clientSecret, httpClient, region): blank or null
     * credentials are refused first, then a null HTTP client, then a null
     * region; the token cache gets the region's endpoint, an empty scope and
     * a five-minute refresh offset.
     */
    static method New(clientId: Option<string>, clientSecret: Option<string>, httpClientGiven: bool,
                      region: Option<Region>)
      returns (r: Result<Client, Error>)
      ensures r.Ok? <==>
        clientId.Some? && !IsBlank(clientId.value) && clientSecret.Some? && !IsBlank(clientSecret.value)
        && httpClientGiven && region.Some?
      ensures (clientId.None? || IsBlank(clientId.value)) ==>
        r == Err(IllegalArgument("Client ID must not be null or empty."))
      ensures clientId.Some? && !IsBlank(clientId.value) && (clientSecret.None? || IsBlank(clientSecret.value)) ==>
        r == Err(IllegalArgument("Client Secret must not be null or empty."))
      ensures (clientId.Some? && !IsBlank(clientId.value) && clientSecret.Some? && !IsBlank(clientSecret.value)
               && !httpClientGiven) ==> r == Err(NullPointer("HttpClient must not be null."))
      ensures (clientId.Some? && !IsBlank(clientId.value) && clientSecret.Some? && !IsBlank(clientSecret.value)
               && httpClientGiven && region.None?) ==> r == Err(NullPointer("Region must not be null."))
      ensures r.Ok? ==>
        fresh(r.value) && fresh(r.value.httpClient) && r.value.region == region.value
        && r.value.httpClient.Valid() && r.value.httpClient.accessToken.None?
        && r.value.httpClient.settings
           == OAuthSettings(TokenEndpoint(region.value), clientId.value, clientSecret.value, "", 300)
    {
      if clientId.None? || IsBlank(clientId.value) {
        return Err(IllegalArgument("Client ID must not be null or empty."));
      }
      if clientSecret.None? || IsBlank(clientSecret.value) {
        return Err(IllegalArgument("Client Secret must not be null or empty."));
      }
      if !httpClientGiven {
        return Err(NullPointer("HttpClient must not be null."));
      }
      if region.None? {
        return Err(NullPointer("Region must not be null."));
      }
      // The surrounding catch, which would report an IllegalStateException, is never reached.
      InitializationCannotFail(region.value, clientId.value, clientSecret.value);
      var settings := NewSettings(Some(TokenEndpoint(region.value)), clientId, clientSecret, Some(""), 300, true);
      var oauth := new OAuthHttpClient(settings.value);
      var c := new Client(oauth, region.value);
      return Ok(c);
    }

    /** new Client(clientId, clientSecret) and new Client(clientId, clientSecret, httpClient): region US. */
    static method NewForUS(clientId: Option<string>, clientSecret: Option<string>, httpClientGiven: bool)
      returns (r: Result<Client, Error>)
      ensures r.Ok? <==>
        clientId.Some? && !IsBlank(clientId.value) && clientSecret.Some? && !IsBlank(clientSecret.value)
        && httpClientGiven
      ensures r.Ok? ==>
        fresh(r.value) && r.value.region == US
        && r.value.httpClient.settings.tokenEndpoint == TokenEndpoint(US)
    {
      r := New(clientId, clientSecret, httpClientGiven, Some(US));
    }

    /**
     * send: a null message is refused before anything else, then a
     * serialization failure; otherwise the JSON is posted through the token
     * cache and the reply becomes a SendResult.
     */
    method Send(message: Option<Message>, serialized: Option<string>, clock: Clock, reply: TokenReply,
                transport: Option<HttpResponse>, parse: string -> JsonDocument)
      returns (r: Result<SendResult, Error>, sent: Option<HttpRequest>)
      requires httpClient.Valid()
      modifies httpClient
      ensures httpClient.Valid()
      ensures message.None? ==>
        r == Err(IllegalArgument("Message must not be null.")) && sent.None?
        && httpClient.accessToken == old(httpClient.accessToken)
      ensures message.Some? && serialized.None? ==>
        r == Err(IllegalState("Failed to serialize the message to JSON.")) && sent.None?
        && httpClient.accessToken == old(httpClient.accessToken)
      ensures sent.Some? ==>
        message.Some? && serialized.Some? && httpClient.accessToken.Some?
        && sent.value == Authorized(Copied(SendRequest(SendEndpoint(region), serialized.value)),
                                    httpClient.accessToken.value)
      ensures message.Some? && serialized.Some? && sent.None? ==>
        r.Err? && r.error.Completion? && r.error.cause.HttpRequestFailure?
      ensures sent.Some? && transport.None? ==>
        r == Err(Completion(Some("Asynchronous request failed: " + "POST" + " " + SendEndpoint(region)), TransportFailure))
      ensures sent.Some? && transport.Some? ==> r == CreateAsync(transport, parse)
    {
      if message.None? {
        return Err(IllegalArgument("Message must not be null.")), None;
      }
      if serialized.None? {
        return Err(IllegalState("Failed to serialize the message to JSON.")), None;
      }
      var request := SendRequest(SendEndpoint(region), serialized.value);
      var outcome, tokenRequest;
      outcome, tokenRequest, sent := httpClient.SendAsync(request, clock, reply, transport);
      if outcome.Err? {
        return Err(Propagated(outcome.error)), sent;
      }
      r := CreateAsync(Some(outcome.value), parse);
    }
  }
}
