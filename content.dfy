/**
 * Content: a message body and its type (plain text or HTML), the
 * case-insensitive parsing of type names, and the JSON adapter, which writes
 * the MIME type but reads a type name.
 */
module Contents {
  import opened Wrappers
  import opened Errors
  import opened Java

  datatype ContentType = Text | Html

  /** ContentType.name(). */
  function Name(t: ContentType): string
  {
    match t
    case Text => "TEXT"
    case Html => "HTML"
  }

  /** ContentType.getMimeType(). */
  function MimeTypeOf(t: ContentType): string
  {
    match t
    case Text => "text/plain"
    case Html => "text/html"
  }

  /** ContentType.fromString: valueOf of the upper-cased string. */
  function ContentTypeFromString(str: Option<string>): (r: Result<ContentType, Error>)
    ensures str.None? ==> r == Err(NullPointer("Content type string must not be null."))
    ensures r == Ok(Text) <==> str.Some? && EqualsIgnoreCase(str.value, "TEXT")
    ensures r == Ok(Html) <==> str.Some? && EqualsIgnoreCase(str.value, "HTML")
    ensures str.Some? && r.Err? ==> r.error.IllegalArgument?
  {
    if str.None? then
      Err(NullPointer("Content type string must not be null."))
    else
      var upper := ToUpperCase(str.value);
      UpperCaseMatchesIgnoringCase(str.value, "TEXT");
      UpperCaseMatchesIgnoringCase(str.value, "HTML");
      if upper == "TEXT" then Ok(Text)
      else if upper == "HTML" then Ok(Html)
      else Err(IllegalArgument("Invalid content type value: '" + str.value + "'. Expected 'TEXT' or 'HTML'."))
  }

  /** For an upper-case name, upper-casing s yields it exactly when s equals it ignoring case. */
  lemma UpperCaseMatchesIgnoringCase(s: string, name: string)
    requires forall i | 0 <= i < |name| :: 'A' <= name[i] <= 'Z'
    ensures ToUpperCase(s) == name <==> EqualsIgnoreCase(s, name)
  {
    if EqualsIgnoreCase(s, name) {
      assert forall i | 0 <= i < |s| :: ToUpperCase(s)[i] == name[i];
    }
    if ToUpperCase(s) == name {
      assert forall i | 0 <= i < |s| :: UpperChar(s[i]) == UpperChar(name[i]);
    }
  }

  /** ContentTypeJsonAdapter.adaptToJson. */
  function AdaptToJson(t: ContentType): string
  {
    MimeTypeOf(t)
  }

  /** ContentTypeJsonAdapter.adaptFromJson. */
  function AdaptFromJson(value: Option<string>): Result<ContentType, Error>
  {
    ContentTypeFromString(value)
  }

  /** Names parse back in any letter case. */
  lemma NameRoundTrip(t: ContentType)
    ensures ContentTypeFromString(Some(Name(t))) == Ok(t)
    ensures ContentTypeFromString(Some(ToLowerCase(Name(t)))) == Ok(t)
  {
    var lower := ToLowerCase(Name(t));
    assert EqualsIgnoreCase(lower, Name(t));
  }

  /**
   * The adapter is not a round trip: what it writes ("text/plain",
   * "text/html") is not a type name, so reading it back always fails.
   */
  lemma AdapterDoesNotRoundTrip(t: ContentType)
    ensures AdaptFromJson(Some(AdaptToJson(t))).Err?
  {
    var written := AdaptToJson(t);
    assert !EqualsIgnoreCase(written, "TEXT") && !EqualsIgnoreCase(written, "HTML");
  }

  /** A body with its type; both setters refuse null and then leave the field as it was. */
  class Content {
    var body: string
    var contentType: ContentType

    constructor (body: string, contentType: ContentType)
      ensures this.body == body && this.contentType == contentType
    {
      this.body := body;
      this.contentType := contentType;
    }

    /** new Content(body, contentType): setBody, then setContentType. */
    static method New(body: Option<string>, contentType: Option<ContentType>) returns (r: Result<Content, Error>)
      ensures r.Ok? <==> body.Some? && contentType.Some?
      ensures body.None? ==> r == Err(NullPointer("Body must not be null."))
      ensures body.Some? && contentType.None? ==> r == Err(NullPointer("Content type must not be null."))
      ensures r.Ok? ==> fresh(r.value) && r.value.body == body.value && r.value.contentType == contentType.value
    {
      if body.None? {
        return Err(NullPointer("Body must not be null."));
      }
      if contentType.None? {
        return Err(NullPointer("Content type must not be null."));
      }
      var c := new Content(body.value, contentType.value);
      return Ok(c);
    }

    method SetBody(body: Option<string>) returns (err: Option<Error>)
      modifies this
      ensures body.None? ==> err == Some(NullPointer("Body must not be null.")) && this.body == old(this.body)
      ensures body.Some? ==> err.None? && this.body == body.value
      ensures contentType == old(contentType)
    {
      if body.None? {
        return Some(NullPointer("Body must not be null."));
      }
      this.body := body.value;
      return None;
    }

    method SetContentType(contentType: Option<ContentType>) returns (err: Option<Error>)
      modifies this
      ensures contentType.None? ==>
        err == Some(NullPointer("Content type must not be null.")) && this.contentType == old(this.contentType)
      ensures contentType.Some? ==> err.None? && this.contentType == contentType.value
      ensures body == old(body)
    {
      if contentType.None? {
        return Some(NullPointer("Content type must not be null."));
      }
      this.contentType := contentType.value;
      return None;
    }
  }
}
