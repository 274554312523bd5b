/**
 * io.pfpt.ser Attachment: Base64 content with a file name, a MIME type
 * (given, or inferred from the file name by the shared MIME mapper), a
 * disposition (inline or attachment) and a content id, validated once by
 * the private constructor; and the Builder that collects the parts.
 */
module Attachments {
  import opened Wrappers
  import opened Errors
  import opened Java
  import opened Base64
  import opened MimeMapping

  datatype Disposition = INLINE | ATTACHMENT

  /** Disposition.getAttachmentType(). */
  function Value(d: Disposition): string
  {
    match d
    case INLINE => "inline"
    case ATTACHMENT => "attachment"
  }

  /** The first of candidates whose value equals str ignoring case (a null str equals nothing). */
  function FindDisposition(candidates: seq<Disposition>, str: Option<string>): (r: Option<Disposition>)
    ensures r.Some? ==> r.value in candidates && str.Some? && EqualsIgnoreCase(Value(r.value), str.value)
    ensures r.None? ==> forall d | d in candidates :: !(str.Some? && EqualsIgnoreCase(Value(d), str.value))
  {
    if |candidates| == 0 then None
    else if str.Some? && EqualsIgnoreCase(Value(candidates[0]), str.value) then Some(candidates[0])
    else FindDisposition(candidates[1..], str)
  }

  /** Disposition.fromString: a case-insensitive search of values(). */
  function DispositionFromString(str: Option<string>): (r: Result<Disposition, Error>)
    ensures r.Ok? <==> str.Some? && (EqualsIgnoreCase(str.value, "inline") || EqualsIgnoreCase(str.value, "attachment"))
    ensures r.Ok? ==> EqualsIgnoreCase(str.value, Value(r.value))
    ensures r.Err? ==> r.error == IllegalArgument(ConcatNullable("Invalid Disposition value: '", str) + "'")
  {
    EqualsIgnoreCaseSymmetric(str, "inline");
    EqualsIgnoreCaseSymmetric(str, "attachment");
    var values := [INLINE, ATTACHMENT];
    var found := FindDisposition(values, str);
    assert values[0] in values && values[1] in values;
    if found.Some? then Ok(found.value)
    else Err(IllegalArgument(ConcatNullable("Invalid Disposition value: '", str) + "'"))
  }

  lemma EqualsIgnoreCaseSymmetric(str: Option<string>, t: string)
    ensures str.Some? ==> (EqualsIgnoreCase(str.value, t) <==> EqualsIgnoreCase(t, str.value))
  {
  }

  /** DispositionJsonAdapter writes the value and reads it back with fromString: a round trip. */
  lemma DispositionRoundTrip(d: Disposition)
    ensures DispositionFromString(Some(Value(d))) == Ok(d)
    ensures DispositionFromString(Some(ToUpperCase(Value(d)))) == Ok(d)
  {
    var upper := ToUpperCase(Value(d));
    assert EqualsIgnoreCase(upper, Value(d));
    assert !EqualsIgnoreCase("inline", "attachment");
  }

  datatype Attachment = Attachment(
    content: string,
    disposition: Disposition,
    filename: string,
    contentId: Option<string>,
    mimeType: string)

  /** The content id an attachment is given: a non-blank one as supplied, else a fresh one for INLINE, else none. */
  function ResolveContentId(contentId: Option<string>, disposition: Disposition, freshId: string): Option<string>
  {
    if contentId.None? || IsBlank(contentId.value) then
      (if disposition == INLINE then Some(freshId) else None)
    else contentId
  }

  /**
   * The private constructor.  Checks run in a fixed order (content, file
   * name, Base64, blank name, name length, blank MIME type, inference,
   * disposition) and the first failure is reported.  freshId stands for
   * UUID.randomUUID().toString().
   */
  function NewAttachment(content: Option<string>, filename: Option<string>, mimeType: Option<string>,
                         disposition: Option<Disposition>, contentId: Option<string>,
                         mapper: DefaultMimeMapper, freshId: string): (r: Result<Attachment, Error>)
    reads mapper
    requires !IsBlank(freshId)
    ensures r.Ok? <==>
      && content.Some? && filename.Some? && DecoderAccepts(content.value)
      && !IsBlank(filename.value) && Utf16Length(filename.value) <= 1000
      && (mimeType.Some? ==> !IsBlank(mimeType.value))
      && (mimeType.None? ==> mapper.GetMimeType(filename).Ok? && !IsBlank(mapper.GetMimeType(filename).value))
      && disposition.Some?
    ensures r.Ok? ==>
      && r.value.content == content.value && r.value.filename == filename.value
      && r.value.disposition == disposition.value
      && DecoderAccepts(r.value.content) && !IsBlank(r.value.mimeType)
    ensures r.Ok? && mimeType.Some? ==> r.value.mimeType == mimeType.value
    ensures r.Ok? && mimeType.None? ==> Ok(r.value.mimeType) == mapper.GetMimeType(filename)
    ensures r.Ok? && r.value.disposition == INLINE ==> r.value.contentId.Some?
    ensures r.Ok? && r.value.contentId.Some? ==> !IsBlank(r.value.contentId.value)
    ensures r.Ok? && contentId.Some? && !IsBlank(contentId.value) ==> r.value.contentId == contentId
    ensures r.Ok? && (contentId.None? || IsBlank(contentId.value)) ==>
      r.value.contentId == (if r.value.disposition == INLINE then Some(freshId) else None)
    ensures content.None? ==> r == Err(IllegalArgument("Content cannot be null."))
  {
    if content.None? then Err(IllegalArgument("Content cannot be null."))
    else if filename.None? then Err(IllegalArgument("Filename cannot be null."))
    else if !DecoderAccepts(content.value) then Err(IllegalArgument("Content must be a valid Base64-encoded string."))
    else if IsBlank(filename.value) then Err(IllegalArgument("Filename cannot be empty or contain only whitespace."))
    else if Utf16Length(filename.value) > 1000 then Err(IllegalArgument("Filename must not exceed 1000 characters."))
    else if mimeType.Some? && IsBlank(mimeType.value) then
      Err(IllegalArgument("MIME type cannot be empty or contain only whitespace."))
    else
      var resolved := if mimeType.Some? then Ok(mimeType.value) else mapper.GetMimeType(filename);
      if resolved.Err? then Err(resolved.error)
      else if IsBlank(resolved.value) then Err(IllegalArgument("MIME type must be a valid, non-empty string."))
      else if disposition.None? then Err(IllegalArgument("Disposition cannot be null."))
      else Ok(Attachment(content.value, disposition.value, filename.value,
                         ResolveContentId(contentId, disposition.value, freshId), resolved.value))
  }

  /** The Base64 check comes before the file-name checks: bad content with a blank name reports the content. */
  lemma ContentCheckedBeforeFilename(mapper: DefaultMimeMapper, freshId: string)
    requires !IsBlank(freshId)
    ensures NewAttachment(Some("A"), Some(" "), None, Some(ATTACHMENT), None, mapper, freshId)
         == Err(IllegalArgument("Content must be a valid Base64-encoded string."))
  {
    assert !DecoderAccepts("A");
  }

  /**
   * With the shared mapper as constructed (fallback off), leaving the MIME
   * type out is an error for a file name whose extension the table lacks.
   */
  lemma NoInferenceForUnknownExtension(mapper: DefaultMimeMapper, freshId: string)
    requires !IsBlank(freshId)
    requires mapper.mimeTypeMap == DefaultTable() && !mapper.allowFallbackMimeType
    ensures NewAttachment(Some("TWFu"), Some("archive.qqq"), None, Some(ATTACHMENT), None, mapper, freshId).Err?
  {
    UnmappedNamesFail(mapper);
  }

  /**
   * An explicit MIME type is stored as given: it is never checked against
   * the mapper's known types.
   */
  lemma ExplicitMimeTypeNotChecked(mapper: DefaultMimeMapper, freshId: string)
    requires !IsBlank(freshId)
    ensures NewAttachment(Some("TWFu"), Some("a.bin"), Some("x/not-a-known-type"), Some(INLINE), None, mapper, freshId)
         == Ok(Attachment("TWFu", INLINE, "a.bin", Some(freshId), "x/not-a-known-type"))
  {
    assert DecoderAccepts("TWFu") by { EncodeExample(); EncodeAccepted([77, 97, 110]); }
    assert !IsWhitespace("a.bin"[0]);
    assert !IsWhitespace("x/not-a-known-type"[0]);
  }

  /**
   * Attachment.Builder.  Until a from* step has run, content and file name
   * are null; the disposition is never null, and an ATTACHMENT disposition
   * never carries a content id.
   */
  class AttachmentBuilder {
    var content: Option<string>
    var filename: Option<string>
    var mimeType: Option<string>
    var disposition: Disposition
    var contentId: Option<string>

    predicate Valid()
      reads this
    {
      disposition == ATTACHMENT ==> contentId.None?
    }

    /** Attachment.builder(): an empty builder, disposed as an attachment. */
    constructor ()
      ensures Valid()
      ensures content.None? && filename.None? && mimeType.None?
      ensures disposition == ATTACHMENT && contentId.None?
    {
      content := None;
      filename := None;
      mimeType := None;
      disposition := ATTACHMENT;
      contentId := None;
    }

    method DispositionAttached()
      modifies this
      ensures Valid()
      ensures disposition == ATTACHMENT && contentId.None?
      ensures content == old(content) && filename == old(filename) && mimeType == old(mimeType)
    {
      disposition := ATTACHMENT;
      contentId := None;
    }

    /** dispositionInline(): INLINE, with the id left for the constructor to generate. */
    method DispositionInline()
      modifies this
      ensures Valid()
      ensures disposition == INLINE && contentId.None?
      ensures content == old(content) && filename == old(filename) && mimeType == old(mimeType)
    {
      disposition := INLINE;
      contentId := None;
    }

    /** dispositionInline(contentId): null is refused before anything changes. */
    method DispositionInlineWithId(contentId: Option<string>) returns (err: Option<Error>)
      requires Valid()
      modifies this
      ensures Valid()
      ensures contentId.None? ==>
        (err == Some(NullPointer("ContentId must not be null."))
         && disposition == old(disposition) && this.contentId == old(this.contentId))
      ensures contentId.Some? ==> err.None? && disposition == INLINE && this.contentId == contentId
      ensures content == old(content) && filename == old(filename) && mimeType == old(mimeType)
    {
      if contentId.None? {
        return Some(NullPointer("ContentId must not be null."));
      }
      this.contentId := contentId;
      disposition := INLINE;
      return None;
    }

    method Filename(filename: Option<string>) returns (err: Option<Error>)
      requires Valid()
      modifies this
      ensures Valid()
      ensures filename.None? ==> err == Some(NullPointer("Filename must not be null.")) && this.filename == old(this.filename)
      ensures filename.Some? ==> err.None? && this.filename == filename
      ensures content == old(content) && mimeType == old(mimeType)
      ensures disposition == old(disposition) && contentId == old(contentId)
    {
      if filename.None? {
        return Some(NullPointer("Filename must not be null."));
      }
      this.filename := filename;
      return None;
    }

    method MimeType(mimeType: Option<string>) returns (err: Option<Error>)
      requires Valid()
      modifies this
      ensures Valid()
      ensures mimeType.None? ==> err == Some(NullPointer("MimeType must not be null.")) && this.mimeType == old(this.mimeType)
      ensures mimeType.Some? ==> err.None? && this.mimeType == mimeType
      ensures content == old(content) && filename == old(filename)
      ensures disposition == old(disposition) && contentId == old(contentId)
    {
      if mimeType.None? {
        return Some(NullPointer("MimeType must not be null."));
      }
      this.mimeType := mimeType;
      return None;
    }

    /** fromBytes: the content becomes the Base64 encoding of the bytes, which always passes the later check. */
    method FromBytes(data: Option<seq<Byte>>, filename: Option<string>) returns (err: Option<Error>)
      requires Valid()
      modifies this
      ensures Valid()
      ensures data.None? ==> err == Some(NullPointer("Byte array must not be null."))
      ensures data.Some? && filename.None? ==> err == Some(NullPointer("Filename must not be null."))
      ensures err.Some? ==> content == old(content) && this.filename == old(this.filename)
      ensures err.None? <==> data.Some? && filename.Some?
      ensures err.None? ==> content == Some(Encode(data.value)) && this.filename == filename
      ensures err.None? ==> DecoderAccepts(content.value)
      ensures mimeType == old(mimeType) && disposition == old(disposition) && contentId == old(contentId)
    {
      if data.None? {
        return Some(NullPointer("Byte array must not be null."));
      }
      if filename.None? {
        return Some(NullPointer("Filename must not be null."));
      }
      EncodeAccepted(data.value);
      content := Some(Encode(data.value));
      this.filename := filename;
      return None;
    }

    /** fromBase64: the content is taken as given; the decode attempt here has no effect on the outcome. */
    method FromBase64(base64Content: Option<string>, filename: Option<string>) returns (err: Option<Error>)
      requires Valid()
      modifies this
      ensures Valid()
      ensures base64Content.None? ==> err == Some(NullPointer("Base64 content must not be null."))
      ensures base64Content.Some? && filename.None? ==> err == Some(NullPointer("Filename must not be null."))
      ensures err.Some? ==> content == old(content) && this.filename == old(this.filename)
      ensures err.None? <==> base64Content.Some? && filename.Some?
      ensures err.None? ==> content == base64Content && this.filename == filename
      ensures mimeType == old(mimeType) && disposition == old(disposition) && contentId == old(contentId)
    {
      if base64Content.None? {
        return Some(NullPointer("Base64 content must not be null."));
      }
      if filename.None? {
        return Some(NullPointer("Filename must not be null."));
      }
      content := base64Content;
      this.filename := filename;
      return None;
    }

    /**
     * build(): the constructor applied to the collected parts.  Whatever the
     * order of the steps, a built attachment has a content id exactly when it
     * is INLINE.
     */
    method Build(mapper: DefaultMimeMapper, freshId: string) returns (r: Result<Attachment, Error>)
      requires Valid() && !IsBlank(freshId)
      ensures r == NewAttachment(content, filename, mimeType, Some(disposition), contentId, mapper, freshId)
      ensures r.Ok? ==> (r.value.disposition == INLINE <==> r.value.contentId.Some?)
      ensures r.Ok? ==> DecoderAccepts(r.value.content)
    {
      r := NewAttachment(content, filename, mimeType, Some(disposition), contentId, mapper, freshId);
    }
  }
}
