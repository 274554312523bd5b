/**
 * SendResult: the outcome of a send, read from the HTTP response.  The body
 * is parsed as a JSON object unless it is blank; a body that does not parse
 * leaves every field empty, a missing member reads as "", and any other
 * member is rendered with toString().  The io.pfpt.ser and
 * io.pfpt.secureemailrelay classes are the same and are modelled once.
 */
module SendResults {
  import opened Wrappers
  import opened Errors
  import opened Java
  import opened Json
  import opened Http

  datatype SendResult = SendResult(
    messageId: string,
    reason: string,
    requestId: string,
    httpResponse: HttpResponse,
    rawJson: string)

  predicate IsDigit(c: char) {
    '0' <= c <= '9'
  }

  function DigitChar(d: nat): char
    requires d < 10
  {
    (('0' as int) + d) as char
  }

  /** The decimal digits of n, most significant first, without leading zeros. */
  function Digits(n: nat): (s: string)
    ensures |s| > 0 && (forall i :: 0 <= i < |s| ==> IsDigit(s[i]))
    ensures |s| > 1 ==> s[0] != '0'
  {
    if n < 10 then [DigitChar(n)] else Digits(n / 10) + [DigitChar(n % 10)]
  }

  /** The number a string of decimal digits denotes. */
  function DigitsValue(s: string): int
    requires forall i :: 0 <= i < |s| ==> IsDigit(s[i])
  {
    if s == [] then 0 else 10 * DigitsValue(s[..|s| - 1]) + (s[|s| - 1] as int - '0' as int)
  }

  lemma {:induction false} DigitsRoundTrip(n: nat)
    ensures DigitsValue(Digits(n)) == n
    decreases n
  {
    if n >= 10 {
      DigitsRoundTrip(n / 10);
      var s := Digits(n);
      assert s[..|s| - 1] == Digits(n / 10);
    }
  }

  /** BigDecimal.toString() of an integral value. */
  function DecimalString(n: int): string {
    if n < 0 then "-" + Digits(-n) else Digits(n)
  }

  /** Object.toString() of a value the JSON reader put in the map; null has none. */
  function Render(v: JsonValue): (r: Option<string>)
    ensures r.None? <==> v.JNull?
    ensures v.JString? ==> r == Some(v.text)
  {
    match v
    case JString(text) => Some(text)
    case JNumber(n) => Some(DecimalString(n))
    case JBool(b) => Some(if b then "true" else "false")
    case JNull => None
    case JStructure(rendered) => Some(rendered)
  }

  /** parsedJson.getOrDefault(name, "").toString(): None where that dereferences null. */
  function Field(members: map<string, JsonValue>, name: string): (r: Option<string>)
    ensures r.None? <==> name in members && members[name].JNull?
    ensures name !in members ==> r == Some("")
    ensures name in members && members[name].JString? ==> r == Some(members[name].text)
  {
    if name in members then Render(members[name]) else Some("")
  }

  /**
   * The map the constructor reads from: empty for a blank or unparsable body,
   * None when the body is the JSON literal null.
   */
  function ParsedMembers(raw: string, parse: string -> JsonDocument): (r: Option<map<string, JsonValue>>)
    ensures IsBlank(raw) ==> r == Some(map[])
    ensures r.None? <==> !IsBlank(raw) && parse(raw).NullDocument?
  {
    if IsBlank(raw) then Some(map[])
    else match parse(raw)
      case Unparsable => Some(map[])
      case NullDocument => None
      case Object(members) => Some(members)
  }

  /**
   * The private constructor: a null response is refused, a null body is
   * kept as "", and each field is read from the parsed members.
   */
  function NewSendResult(response: Option<HttpResponse>, rawJson: Option<string>, parse: string -> JsonDocument)
    : (r: Result<SendResult, Error>)
    ensures response.None? ==> r == Err(NullPointer("HTTP response must not be null."))
    ensures r.Ok? ==> r.value.httpResponse == response.value
    ensures r.Ok? ==> r.value.rawJson == (if rawJson.Some? then rawJson.value else "")
    ensures response.Some? && (rawJson.None? || IsBlank(rawJson.value)) ==>
      r.Ok? && r.value.messageId == "" && r.value.reason == "" && r.value.requestId == ""
    ensures response.Some? && rawJson.Some? && !IsBlank(rawJson.value) && parse(rawJson.value).Unparsable? ==>
      r.Ok? && r.value.messageId == "" && r.value.reason == "" && r.value.requestId == ""
    ensures response.Some? && rawJson.Some? && !IsBlank(rawJson.value) && parse(rawJson.value).NullDocument? ==>
      r == Err(NullDereference)
    ensures response.Some? && rawJson.Some? && !IsBlank(rawJson.value) && parse(rawJson.value).Object? ==>
      var members := parse(rawJson.value).members;
      (r.Ok? <==> Field(members, "message_id").Some? && Field(members, "reason").Some? && Field(members, "request_id").Some?)
      && (r.Ok? ==>
        r.value.messageId == Field(members, "message_id").value
        && r.value.reason == Field(members, "reason").value
        && r.value.requestId == Field(members, "request_id").value)
  {
    if response.None? then
      Err(NullPointer("HTTP response must not be null."))
    else
      var raw := if rawJson.Some? then rawJson.value else "";
      match ParsedMembers(raw, parse)
      case None => Err(NullDereference)
      case Some(members) =>
        var messageId := Field(members, "message_id");
        var reason := Field(members, "reason");
        var requestId := Field(members, "request_id");
        if messageId.None? || reason.None? || requestId.None? then
          Err(NullDereference)
        else
          Ok(SendResult(messageId.value, reason.value, requestId.value, response.value, raw))
  }

  /**
   * createAsync(response): the constructor runs on another thread with the
   * response's own body; any exception completes the future exceptionally.
   * The result is the future's outcome.
   */
  function CreateAsync(response: Option<HttpResponse>, parse: string -> JsonDocument): (r: Result<SendResult, Error>)
    ensures response.None? ==> r == Err(Completion(None, NullDereference))
    ensures r.Err? ==> r.error.Completion? && r.error.detail.None?
    ensures response.Some? ==>
      match NewSendResult(response, response.value.body, parse)
      case Ok(result) => r == Ok(result)
      case Err(e) => r == Err(Completion(None, e))
  {
    if response.None? then
      Err(Completion(None, NullDereference))
    else
      match NewSendResult(response, response.value.body, parse)
      case Ok(result) => Ok(result)
      case Err(e) => Err(Completion(None, e))
  }

  /** A reply carrying the three members as strings is read back field for field. */
  lemma ReadsServerReply(response: HttpResponse, raw: string, parse: string -> JsonDocument,
                         id: string, reason: string, requestId: string)
    requires !IsBlank(raw)
    requires parse(raw) == Object(map["message_id" := JString(id), "reason" := JString(reason), "request_id" := JString(requestId)])
    ensures NewSendResult(Some(response), Some(raw), parse) == Ok(SendResult(id, reason, requestId, response, raw))
  {
  }

  /** A member that is JSON null makes toString() dereference null: no SendResult is built. */
  lemma NullMemberFails(response: HttpResponse, raw: string, parse: string -> JsonDocument)
    requires !IsBlank(raw)
    requires parse(raw) == Object(map["message_id" := JString("m1"), "reason" := JNull])
    ensures NewSendResult(Some(response), Some(raw), parse) == Err(NullDereference)
  {
    var members := parse(raw).members;
    assert Field(members, "reason").None?;
  }

  /** A numeric member reads as its decimal digits, and those digits denote the number. */
  lemma NumericMemberIsDecimal(members: map<string, JsonValue>, name: string, n: nat)
    requires name in members && members[name] == JNumber(n)
    ensures Field(members, name).Some?
    ensures var text := Field(members, name).value;
      (forall i :: 0 <= i < |text| ==> IsDigit(text[i])) && DigitsValue(text) == n
  {
    DigitsRoundTrip(n);
  }

  /** A blank body is never handed to the parser. */
  lemma BlankBodyIgnoresParser(response: Option<HttpResponse>, raw: string, p: string -> JsonDocument, q: string -> JsonDocument)
    requires IsBlank(raw)
    ensures NewSendResult(response, Some(raw), p) == NewSendResult(response, Some(raw), q)
  {
  }
}
