/**
 * com.proofpoint.secureemailrelay Attachment: the same private constructor
 * and Disposition as Attachments, reached through static factories instead
 * of a builder.
 */
module ProofpointAttachment {
  import opened Wrappers
  import opened Errors
  import opened Java
  import opened Base64
  import opened MimeMapping
  import opened Attachments

  /** fromBase64: the constructor, with the content as given. */
  function FromBase64(base64Content: Option<string>, filename: Option<string>, mimeType: Option<string>,
                      disposition: Option<Disposition>, contentId: Option<string>,
                      mapper: DefaultMimeMapper, freshId: string): (r: Result<Attachment, Error>)
    reads mapper
    requires !IsBlank(freshId)
    ensures !(base64Content.Some? && DecoderAccepts(base64Content.value)) ==> r.Err?
    ensures r.Ok? ==>
      base64Content.Some? && disposition.Some?
      && r.value.content == base64Content.value && r.value.disposition == disposition.value
  {
    NewAttachment(base64Content, filename, mimeType, disposition, contentId, mapper, freshId)
  }

  /**
   * fromBytes: null or empty data is refused; otherwise the content is the
   * Base64 encoding of the bytes, so the Base64 check cannot fail, and no
   * content id is passed on.
   */
  function FromBytes(data: Option<seq<Byte>>, filename: Option<string>, mimeType: Option<string>,
                     disposition: Option<Disposition>, mapper: DefaultMimeMapper, freshId: string): (r: Result<Attachment, Error>)
    reads mapper
    requires !IsBlank(freshId)
    ensures data.None? || |data.value| == 0 ==> r == Err(IllegalArgument("Byte array must not be null or empty."))
    ensures r.Ok? ==> data.Some? && |data.value| > 0 && r.value.content == Encode(data.value)
    ensures r.Ok? ==> (r.value.disposition == INLINE <==> r.value.contentId == Some(freshId))
    ensures r.Ok? && r.value.disposition == ATTACHMENT ==> r.value.contentId.None?
    ensures r.Err? ==> r.error != IllegalArgument("Content must be a valid Base64-encoded string.")
  {
    if data.None? || |data.value| == 0 then
      Err(IllegalArgument("Byte array must not be null or empty."))
    else
      EncodeAccepted(data.value);
      NewAttachment(Some(Encode(data.value)), filename, mimeType, disposition, None, mapper, freshId)
  }
}
