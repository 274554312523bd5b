/**
 * com.proofpoint.secureemailrelay.mail.Client: the older entry point.  It
 * has one fixed endpoint pair instead of a region, and every failure of the
 * send pipeline, whatever its cause, is replaced by one IllegalStateException.
 *
 * The token cache is the com.proofpoint.secureemailrelay.http variant, the
 * one whose sendAsync takes a body handler as this client's call does.
 * JSON-B serialization, the token endpoint's reply, the transport's outcome
 * and the JSON parser are inputs.
 */
module ProofpointClient {
  import opened Wrappers
  import opened Errors
  import opened Java
  import opened Json
  import opened Http
  import opened OAuthCore
  import opened ProofpointHttpOAuth
  import opened ProofpointMessage
  import opened SendResults

  const TokenEndpoint: string := "https://mail.ser.proofpoint.com/v1/token"
  const SendEndpoint: string := "https://mail.ser.proofpoint.com/v1/send"

  /** What exceptionally turns every failure of the pipeline into. */
  const HttpErrorFailure: Error :=
    Completion(None, IllegalState("Failed to send the email request due to an HTTP error."))

  /** The request send builds: a JSON POST to the fixed send endpoint. */
  function SendRequest(json: string): HttpRequest {
    HttpRequest(SendEndpoint, "POST", OfString(json), [("Content-Type", "application/json")], None, None, false)
  }

  /**
   * The outcome of the whole pipeline: the transport's response read as a
   * SendResult, or the one failure exceptionally reports.
   */
  function Recovered(response: Result<HttpResponse, Error>, parse: string -> JsonDocument): (r: Result<SendResult, Error>)
    ensures r.Err? ==> r.error == HttpErrorFailure
    ensures r.Ok? <==> response.Ok? && CreateAsync(Some(response.value), parse).Ok?
    ensures r.Ok? ==> r == CreateAsync(Some(response.value), parse)
  {
    if response.Err? then Err(HttpErrorFailure)
    else
      var result := CreateAsync(Some(response.value), parse);
      if result.Err? then Err(HttpErrorFailure) else result
  }

  /** The token cache's constructor cannot fail once the client's own checks passed. */
  lemma InitializationCannotFail(clientId: string, clientSecret: string)
    ensures NewSettings(Some(TokenEndpoint), Some(clientId), Some(clientSecret), Some(""), 300, true)
         == Ok(OAuthSettings(TokenEndpoint, clientId, clientSecret, "", 300))
  {
  }

  /** A reply whose body is a well-formed JSON object comes through as its SendResult. */
  lemma WellFormedReplyIsRead(response: HttpResponse, parse: string -> JsonDocument)
    requires response.body.Some? && !IsBlank(response.body.value)
    requires parse(response.body.value).Object?
    requires forall k :: k in parse(response.body.value).members ==> !parse(response.body.value).members[k].JNull?
    ensures Recovered(Ok(response), parse).Ok?
    ensures Recovered(Ok(response), parse).value.httpResponse == response
  {
  }

  class Client {
    const httpClient: OAuthHttpClient

    constructor (httpClient: OAuthHttpClient)
      ensures this.httpClient == httpClient
    {
      this.httpClient := httpClient;
    }

    /**
     * new Client(clientId, clientSecret, httpClient): blank or null
     * credentials are refused first, then a null HTTP client; the token
     * cache gets the fixed endpoint, an empty scope and a five-minute
     * refresh offset.
     */
    static method New(clientId: Option<string>, clientSecret: Option<string>, httpClientGiven: bool)
      returns (r: Result<Client, Error>)
      ensures r.Ok? <==>
        clientId.Some? && !IsBlank(clientId.value) && clientSecret.Some? && !IsBlank(clientSecret.value)
        && httpClientGiven
      ensures (clientId.None? || IsBlank(clientId.value)) ==>
        r == Err(IllegalArgument("Client ID must not be null or empty."))
      ensures clientId.Some? && !IsBlank(clientId.value) && (clientSecret.None? || IsBlank(clientSecret.value)) ==>
        r == Err(IllegalArgument("Client Secret must not be null or empty."))
      ensures (clientId.Some? && !IsBlank(clientId.value) && clientSecret.Some? && !IsBlank(clientSecret.value)
               && !httpClientGiven) ==> r == Err(NullPointer("HttpClient must not be null."))
      ensures r.Ok? ==>
        fresh(r.value) && fresh(r.value.httpClient)
        && r.value.httpClient.Valid() && r.value.httpClient.accessToken.None?
        && r.value.httpClient.settings == OAuthSettings(TokenEndpoint, clientId.value, clientSecret.value, "", 300)
    {
      if clientId.None? || IsBlank(clientId.value) {
        return Err(IllegalArgument("Client ID must not be null or empty."));
      }
      if clientSecret.None? || IsBlank(clientSecret.value) {
        return Err(IllegalArgument("Client Secret must not be null or empty."));
      }
      if !httpClientGiven {
        return Err(NullPointer("HttpClient must not be null."));
      }
      // The surrounding catch, which would report an IllegalStateException, is never reached.
      InitializationCannotFail(clientId.value, clientSecret.value);
      var settings := NewSettings(Some(TokenEndpoint), clientId, clientSecret, Some(""), 300, true);
      var oauth := new OAuthHttpClient(settings.value);
      var c := new Client(oauth);
      return Ok(c);
    }

    /**
     * send: a null message is refused before anything else, then a
     * serialization failure; otherwise the JSON is posted through the token
     * cache, and any failure after that point, a failed refresh included,
     * becomes the same IllegalStateException.
     */
    method Send(message: Option<Message>, serialized: Option<string>, clock: Clock, reply: TokenReply,
                transport: Option<HttpResponse>, parse: string -> JsonDocument)
      returns (r: Result<SendResult, Error>, sent: Option<HttpRequest>)
      requires httpClient.Valid()
      modifies httpClient
      ensures httpClient.Valid()
      ensures message.None? ==>
        r == Err(IllegalArgument("Message must not be null.")) && sent.None?
        && httpClient.accessToken == old(httpClient.accessToken)
      ensures message.Some? && serialized.None? ==>
        r == Err(IllegalState("Failed to serialize the message to JSON.")) && sent.None?
        && httpClient.accessToken == old(httpClient.accessToken)
      ensures message.Some? && serialized.Some? ==> (r.Err? ==> r == Err(HttpErrorFailure))
      ensures sent.Some? ==>
        message.Some? && serialized.Some? && httpClient.accessToken.Some?
        && sent.value == Authorized(Copied(SendRequest(serialized.value)), httpClient.accessToken.value)
      ensures message.Some? && serialized.Some? && sent.None? ==> r == Err(HttpErrorFailure)
      ensures sent.Some? ==>
        r == (if transport.None? then Err(HttpErrorFailure) else Recovered(Ok(transport.value), parse))
    {
      if message.None? {
        return Err(IllegalArgument("Message must not be null.")), None;
      }
      if serialized.None? {
        return Err(IllegalState("Failed to serialize the message to JSON.")), None;
      }
      var request := SendRequest(serialized.value);
      var outcome, tokenRequest;
      outcome, tokenRequest, sent := httpClient.SendAsync(request, clock, reply, transport);
      r := Recovered(outcome, parse);
    }
  }
}
