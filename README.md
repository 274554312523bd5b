# Proofpoint Secure Email Relay mail API client, modelled in Dafny

This project models the core of the Java client for the Proofpoint Secure
Email Relay (SER) mail API. A program builds a `Message`, with a sender,
recipients, text or HTML `Content` and Base64 `Attachment`s, and hands it to a
`Client`. The client serializes it to JSON and posts it to the region's
`/v1/send` endpoint through an OAuth token cache. The reply comes back as a
`SendResult`.

The repository ships three generations of the same client:

- `io.pfpt.ser`: a builder-based `Message` and `Attachment`, regions and a MIME mapper;
- `io.pfpt.secureemailrelay`: mutable `MailUser`, `Content`, `MessageHeaders` and `SendResult`;
- `com.proofpoint.secureemailrelay`: a mutable `Message`, static attachment factories, a second
  synchronous OAuth cache in `http` and an asynchronous one in `mail`.

Where two files are identical (`MessageHeaders`, `Content`, the two
`SendResult`s and the attachment constructor), the model holds them once. The
table cites each copy through a different member.

How Java is rendered in the model:

- `null` is `Option`; an exception is an `Err` of `Errors.Error`, and keeps the source's message text.
- `CompletableFuture` failures are `Completion` errors.
- Objects whose fields change (builders, the token caches, `MailUser`,
  `Content`, the com `Message`, the MIME mapper) are classes with `modifies`
  clauses.
- Every `MailUser` a program can hold passed the address pattern when it was constructed.
  The builder methods that take a `MailUser` carry that fact as a precondition.

Things the client gets from outside are parameters of the model:

- the clock, and `Instant.parse`;
- the JSON parser and the JSON-B serializer;
- the token endpoint's reply;
- the transport's outcome;
- the fresh UUID used as a content id.

## Model

| member | source | states |
|---|---|---|
| Regions.HostDeterminesRegion | src/main/java/io/pfpt/ser/mail/Region.java:4-7 | distinct regions have distinct host names |
| Regions.HostIsServiceSubdomain | src/main/java/io/pfpt/ser/mail/Region.java:15-17 | every region's host is a subdomain of ser.proofpoint.com |
| Json.GetString | src/main/java/io/pfpt/ser/http/OAuthHttpClient.java:143 | `getString(name, null)` gives a value exactly when the member exists and is a JSON string, and then gives that string |
| Base64.Sextet | src/main/java/io/pfpt/ser/mail/Attachment.java:102-109 | every 6-bit value maps to a character of the Base64 alphabet |
| Base64.EncodeLength | src/main/java/io/pfpt/ser/mail/Attachment.java:328 | every three bytes become four characters and a partial group is padded to four |
| Base64.EncodeShape | src/main/java/io/pfpt/ser/mail/Attachment.java:325-330 | the encoding is alphabet characters, then only '=' padding up to the length EncodeLength gives |
| Base64.PaddedAccepted | src/main/java/io/pfpt/ser/mail/Attachment.java:102-109 | alphabet characters followed by padding that fits the last group's length always pass the decoder check |
| Base64.EncodeAccepted | src/main/java/io/pfpt/ser/mail/Attachment.java:325-330 | what fromBytes stores always passes the Base64 decoder check that the constructor applies |
| Base64.EncodeExample | src/main/java/io/pfpt/ser/mail/Attachment.java:328 | the RFC 4648 examples "Man" → "TWFu", "Ma" → "TWE=", "M" → "TQ==" |
| Base64.DecoderRejects | src/main/java/io/pfpt/ser/mail/Attachment.java:102-109 | the decoder check rejects bad lengths, misplaced padding and spaces, and accepts unpadded input and "" |
| MimeMapping.FileExtension | src/main/java/io/pfpt/ser/mail/DefaultMimeMapper.java:1141-1146 | the extension is empty exactly when there is no dot or the name ends in one; otherwise it is the lower-cased text after the last dot |
| MimeMapping.DefaultMimeMapper.constructor | src/main/java/io/pfpt/ser/mail/DefaultMimeMapper.java:1032-1034 | the mapper starts with the default table, its values as the known types, octet-stream as the default, and both switches off |
| MimeMapping.DefaultMimeMapper.GetMimeType | src/main/java/io/pfpt/ser/mail/DefaultMimeMapper.java:1045-1071 | a null or blank name is refused; a mapped extension gives its type; an unmapped one gives the default only when fallback is allowed, and fails otherwise |
| MimeMapping.DefaultMimeMapper.IsValidMimeType | src/main/java/io/pfpt/ser/mail/DefaultMimeMapper.java:1080-1089 | a null or blank type is refused; otherwise a type is valid iff it is known or unknown types are allowed |
| MimeMapping.DefaultMimeMapper.AddOrUpdateMimeType | src/main/java/io/pfpt/ser/mail/DefaultMimeMapper.java:1099-1122 | refuses a blank extension or type and changes nothing then; otherwise maps the normalised extension, adds the type to the known types and keeps the known types inside the table's values |
| MimeMapping.DefaultMimeMapper.GetMimeTypeMappings | src/main/java/io/pfpt/ser/mail/DefaultMimeMapper.java:1129-1133 | the snapshot equals the current table |
| MimeMapping.DefaultMimeMapper.SetDefaultMimeType | src/main/java/io/pfpt/ser/mail/DefaultMimeMapper.java:1162-1164 | sets the default type and nothing else |
| MimeMapping.DefaultMimeMapper.SetAllowFallbackMimeType | src/main/java/io/pfpt/ser/mail/DefaultMimeMapper.java:1180-1182 | sets the fallback switch and nothing else |
| MimeMapping.DefaultMimeMapper.SetAllowUnknownMimeType | src/main/java/io/pfpt/ser/mail/DefaultMimeMapper.java:1198-1200 | sets the unknown-type switch and nothing else |
| MimeMapping.KnownStayMapped | src/main/java/io/pfpt/ser/mail/DefaultMimeMapper.java:1112-1120 | after an update every known type is still a value of the table |
| MimeMapping.UpdateForgetsSharedType | src/main/java/io/pfpt/ser/mail/DefaultMimeMapper.java:90-91 | remapping "doc" drops "application/msword" from the known types even though "dot" still maps to it |
| MimeMapping.ExtensionIgnoresCase | src/main/java/io/pfpt/ser/mail/DefaultMimeMapper.java:1141-1146 | lower-casing a file name does not change its extension |
| MimeMapping.LastDotIgnoresCase | src/main/java/io/pfpt/ser/mail/DefaultMimeMapper.java:1143 | lower-casing does not move the last dot |
| MimeMapping.MimeTypeIgnoresCase | src/main/java/io/pfpt/ser/mail/DefaultMimeMapper.java:1057-1070 | a file name and its lower-case form get the same MIME type |
| MimeMapping.UpperCasePdfResolves | src/main/java/io/pfpt/ser/mail/DefaultMimeMapper.java:115 | "Report.PDF" maps to application/pdf with the default table |
| MimeMapping.UnmappedNamesFail | src/main/java/io/pfpt/ser/mail/DefaultMimeMapper.java:1052-1055 | with the default table and no fallback, "archive.qqq" (an extension the source table lacks) and "README" get no type |
| MimeMapping.ControlCharacterExtension | src/main/java/io/pfpt/ser/mail/DefaultMimeMapper.java:1100-1109 | a control character passes the blank check but trims to an empty extension |
| EmailSyntax.FirstIndexOf | src/main/java/io/pfpt/ser/mail/MailUser.java:18-20 | the index of the first occurrence, or the length when there is none |
| EmailSyntax.DotAtomHasShape | src/main/java/io/pfpt/ser/mail/MailUser.java:18-20 | a dot-atom is non-empty, starts and ends with an atext character and has no two dots in a row |
| EmailSyntax.ShapeIsDotAtom | src/main/java/io/pfpt/ser/mail/MailUser.java:18-20 | the converse: every string of that shape is a dot-atom |
| EmailSyntax.HostNameShape | src/main/java/io/pfpt/ser/mail/MailUser.java:18-20 | a host-name domain has a dot, starts and ends with a lower-case letter or digit, and uses only those, '-' and '.' |
| EmailSyntax.SplitOfMatch | src/main/java/io/pfpt/ser/mail/MailUser.java:18-20 | a matching address splits at an '@' into a local part and a domain |
| EmailSyntax.UnquotedLocalPartIsLowerCase | src/main/java/io/pfpt/ser/mail/MailUser.java:18-20 | an unquoted local part has no upper-case letter |
| EmailSyntax.HostDomainIsLowerCase | src/main/java/io/pfpt/ser/mail/MailUser.java:18-20 | a host-name domain has no upper-case letter |
| EmailSyntax.NoUpperCaseOutsideQuotes | src/main/java/io/pfpt/ser/mail/MailUser.java:18-20 | an address with neither a quoted local part nor a domain literal has no upper-case letter |
| EmailSyntax.BlankNeverMatches | src/main/java/io/pfpt/secureemailrelay/mail/MailUser.java:12-14 | a blank string never matches the pattern |
| EmailSyntax.AcceptsPlainAddress | src/main/java/io/pfpt/ser/mail/MailUser.java:18-20 | "user@example.com" matches |
| EmailSyntax.RejectsUpperCase | src/main/java/io/pfpt/ser/mail/MailUser.java:18-20 | "User@example.com" does not match |
| EmailSyntax.DotlessIsNoDomain | src/main/java/io/pfpt/ser/mail/MailUser.java:18-20 | a domain without a dot that is not a literal is refused |
| EmailSyntax.RejectsDotlessDomain | src/main/java/io/pfpt/ser/mail/MailUser.java:18-20 | "a@localhost" does not match |
| MailUsers.ValidateEmail | src/main/java/io/pfpt/ser/mail/MailUser.java:59-80 | accepts exactly the non-null addresses matching the pattern; null and blank are refused with their own messages |
| MailUsers.BlankNeverMatchesOk | src/main/java/io/pfpt/ser/mail/MailUser.java:75-78 | an address that passes the pattern is never blank, so the blank check only decides the message |
| MailUsers.NewMailUser | src/main/java/io/pfpt/ser/mail/MailUser.java:48-51 | the user exists iff the address is valid, and keeps the address and the name |
| MailUsers.NewMailUserWithoutName | src/main/java/io/pfpt/ser/mail/MailUser.java:38-40 | the same, with no name |
| MailUsers.ConstructedAddressIsValid | src/main/java/io/pfpt/ser/mail/MailUser.java:48-51 | a constructed user's address is non-blank and splits into local part and domain |
| MailUsers.Examples | src/main/java/io/pfpt/ser/mail/MailUser.java:59-63 | a plain address is accepted; upper case, null and blank are refused with their messages |
| RelayMailUser.MailUser.constructor | src/main/java/io/pfpt/secureemailrelay/mail/MailUser.java:28-31 | the user holds the given valid address and name |
| RelayMailUser.MailUser.New | src/main/java/io/pfpt/secureemailrelay/mail/MailUser.java:24-37 | construction fails exactly as validateEmail does, with its error |
| RelayMailUser.MailUser.SetEmail | src/main/java/io/pfpt/secureemailrelay/mail/MailUser.java:43-50 | a valid address replaces the old one; an invalid one is refused and leaves the user unchanged |
| RelayMailUser.MailUser.SetName | src/main/java/io/pfpt/secureemailrelay/mail/MailUser.java:56-58 | sets the name, keeps the address |
| Contents.ContentTypeFromString | src/main/java/io/pfpt/ser/mail/Content.java:115-122 | null is refused; "TEXT" and "HTML" are recognised in any case, both directions; anything else is an IllegalArgument |
| Contents.UpperCaseMatchesIgnoringCase | src/main/java/io/pfpt/ser/mail/Content.java:118 | for an upper-case name, comparing the upper-cased string equals comparing ignoring case |
| Contents.NameRoundTrip | src/main/java/io/pfpt/secureemailrelay/mail/Content.java:56-63 | every content type is read back from its name, in upper or lower case |
| Contents.AdapterDoesNotRoundTrip | src/main/java/com/proofpoint/secureemailrelay/mail/Content.java:70-80 | the JSON adapter writes the MIME type but reads a name, so reading back what it wrote always fails |
| Contents.Content.constructor | src/main/java/io/pfpt/ser/mail/Content.java:34-37 | holds the given body and type |
| Contents.Content.New | src/main/java/io/pfpt/ser/mail/Content.java:34-37 | a null body, then a null type, is refused; otherwise the content holds both |
| Contents.Content.SetBody | src/main/java/io/pfpt/ser/mail/Content.java:54-56 | a null body is refused and changes nothing; otherwise the body is replaced and the type kept |
| Contents.Content.SetContentType | src/main/java/io/pfpt/ser/mail/Content.java:73-75 | a null type is refused and changes nothing; otherwise the type is replaced and the body kept |
| Headers.MessageHeaders.constructor | src/main/java/io/pfpt/ser/mail/MessageHeaders.java:28-30 | holds the given sender |
| Headers.MessageHeaders.New | src/main/java/io/pfpt/secureemailrelay/mail/MessageHeaders.java:16-18 | refused exactly when the sender is null; otherwise a new headers object holding that sender |
| Headers.MessageHeaders.SetFrom | src/main/java/com/proofpoint/secureemailrelay/mail/MessageHeaders.java:24-26 | a null sender is refused and changes nothing; otherwise it replaces the old one |
| Attachments.FindDisposition | src/main/java/com/proofpoint/secureemailrelay/mail/Attachment.java:150-157 | finds a candidate whose value equals the string ignoring case, or reports that none does |
| Attachments.DispositionFromString | src/main/java/io/pfpt/ser/mail/Attachment.java:191-198 | "inline" and "attachment" are read in any case, both directions; anything else, null included, is refused with the value in the message |
| Attachments.DispositionRoundTrip | src/main/java/io/pfpt/ser/mail/Attachment.java:240-250 | every disposition is read back from its value, in lower or upper case |
| Attachments.NewAttachment | src/main/java/io/pfpt/ser/mail/Attachment.java:54-94 | the checks in source order; the type is inferred only when none is given; a non-blank given content id is kept; otherwise inline gets the fresh UUID and attachment none |
| Attachments.ContentCheckedBeforeFilename | src/main/java/io/pfpt/ser/mail/Attachment.java:55-67 | bad Base64 is reported before a blank file name |
| Attachments.NoInferenceForUnknownExtension | src/main/java/io/pfpt/ser/mail/Attachment.java:77-78 | an unmapped extension with no explicit type fails |
| Attachments.ExplicitMimeTypeNotChecked | src/main/java/io/pfpt/ser/mail/Attachment.java:73-81 | an explicit type is not checked against the known types |
| Attachments.AttachmentBuilder.constructor | src/main/java/io/pfpt/ser/mail/Attachment.java:260-262 | starts empty, with disposition ATTACHMENT |
| Attachments.AttachmentBuilder.DispositionAttached | src/main/java/io/pfpt/ser/mail/Attachment.java:264-269 | sets ATTACHMENT and clears the content id |
| Attachments.AttachmentBuilder.DispositionInline | src/main/java/io/pfpt/ser/mail/Attachment.java:271-276 | sets INLINE and clears the content id |
| Attachments.AttachmentBuilder.DispositionInlineWithId | src/main/java/io/pfpt/ser/mail/Attachment.java:278-283 | a null id is refused; otherwise sets INLINE with that id |
| Attachments.AttachmentBuilder.Filename | src/main/java/io/pfpt/ser/mail/Attachment.java:285-289 | a null name is refused; otherwise only the name changes |
| Attachments.AttachmentBuilder.MimeType | src/main/java/io/pfpt/ser/mail/Attachment.java:291-295 | a null type is refused; otherwise only the type changes |
| Attachments.AttachmentBuilder.FromBytes | src/main/java/io/pfpt/ser/mail/Attachment.java:324-331 | null data, then a null name, is refused; otherwise the content is the Base64 encoding, which the decoder accepts |
| Attachments.AttachmentBuilder.FromBase64 | src/main/java/io/pfpt/ser/mail/Attachment.java:333-341 | null content, then a null name, is refused; otherwise the content is kept as given |
| Attachments.AttachmentBuilder.Build | src/main/java/io/pfpt/ser/mail/Attachment.java:343-352 | builds with the constructor; a built attachment is inline iff it has a content id, and its content decodes |
| ProofpointAttachment.FromBase64 | src/main/java/com/proofpoint/secureemailrelay/mail/Attachment.java:74-76 | content that fails the decoder check is refused; otherwise the attachment keeps the content and disposition |
| ProofpointAttachment.FromBytes | src/main/java/com/proofpoint/secureemailrelay/mail/Attachment.java:91-96 | null or empty data is refused; otherwise the content is the encoding, and the Base64 check never fails |
| Messages.HeaderFrom | src/main/java/io/pfpt/ser/mail/Message.java:173 | the header sender exists iff the message has headers |
| Messages.MissingPart | src/main/java/io/pfpt/ser/mail/Message.java:327-331 | the first missing part in source order (sender, recipient, subject, content); none iff the draft is complete |
| Messages.GrowingKeepsComplete | src/main/java/io/pfpt/ser/mail/Message.java:274-279 | adding recipients or content never makes a complete draft incomplete |
| Messages.MessageBuilder.constructor | src/main/java/io/pfpt/ser/mail/Message.java:187-197 | starts with every field empty |
| Messages.MessageBuilder.Subject | src/main/java/io/pfpt/ser/mail/Message.java:208 | sets the subject only |
| Messages.MessageBuilder.From | src/main/java/io/pfpt/ser/mail/Message.java:219-222 | sets the sender only |
| Messages.MessageBuilder.FromAddress | src/main/java/io/pfpt/ser/mail/Message.java:224-225 | sets a new sender iff the address is valid; otherwise fails as MailUser does and changes nothing |
| Messages.MessageBuilder.HeaderFromUser | src/main/java/io/pfpt/ser/mail/Message.java:233-236 | sets the header sender only |
| Messages.MessageBuilder.HeaderFromAddress | src/main/java/io/pfpt/ser/mail/Message.java:237-238 | sets a new header sender iff the address is valid |
| Messages.MessageBuilder.AddAttachment | src/main/java/io/pfpt/ser/mail/Message.java:247-248 | null is refused; otherwise appends it and changes nothing else |
| Messages.MessageBuilder.AddContent | src/main/java/io/pfpt/ser/mail/Message.java:259-260 | null is refused; otherwise appends it and changes nothing else |
| Messages.MessageBuilder.AddContentOf | src/main/java/io/pfpt/ser/mail/Message.java:263 | appends new content iff body and type are non-null, with Content's messages otherwise |
| Messages.MessageBuilder.AddTo | src/main/java/io/pfpt/ser/mail/Message.java:274-277 | null is refused; otherwise appends the recipient |
| Messages.MessageBuilder.AddToAddress | src/main/java/io/pfpt/ser/mail/Message.java:278-279 | appends a new recipient iff the address is valid |
| Messages.MessageBuilder.AddCc | src/main/java/io/pfpt/ser/mail/Message.java:287-290 | null is refused; otherwise appends to cc |
| Messages.MessageBuilder.AddCcAddress | src/main/java/io/pfpt/ser/mail/Message.java:291-292 | appends to cc iff the address is valid |
| Messages.MessageBuilder.AddBcc | src/main/java/io/pfpt/ser/mail/Message.java:300-303 | null is refused; otherwise appends to bcc |
| Messages.MessageBuilder.AddBccAddress | src/main/java/io/pfpt/ser/mail/Message.java:304-305 | appends to bcc iff the address is valid |
| Messages.MessageBuilder.AddReplyTo | src/main/java/io/pfpt/ser/mail/Message.java:314-317 | null is refused; otherwise appends to reply-to |
| Messages.MessageBuilder.AddReplyToAddress | src/main/java/io/pfpt/ser/mail/Message.java:318-319 | appends to reply-to iff the address is valid |
| Messages.MessageBuilder.Build | src/main/java/io/pfpt/ser/mail/Message.java:327-331 | succeeds iff the draft is complete, reporting the first missing part otherwise; the message copies the draft, has headers iff a header sender was set, and all its users are valid |
| Messages.BuildThenAddRecipient | src/main/java/io/pfpt/ser/mail/Message.java:83-91 | a built message keeps its own copy of the recipient list, which later additions to the builder do not reach |
| ProofpointMessage.Message.constructor | src/main/java/com/proofpoint/secureemailrelay/mail/Message.java:48-51 | holds subject and sender, no headers and empty lists |
| ProofpointMessage.Message.New | src/main/java/com/proofpoint/secureemailrelay/mail/Message.java:48-51 | a null subject, then a null sender, is refused; otherwise a new message with no header sender and all six lists empty |
| ProofpointMessage.Message.NewWithHeaderFrom | src/main/java/com/proofpoint/secureemailrelay/mail/Message.java:43-46 | as New, with all six lists empty, plus the header sender when one is given |
| ProofpointMessage.Message.GetHeaderFrom | src/main/java/com/proofpoint/secureemailrelay/mail/Message.java:85-88 | the header sender exists iff the message has headers |
| ProofpointMessage.Message.SetHeaderFrom | src/main/java/com/proofpoint/secureemailrelay/mail/Message.java:90-98 | afterwards the header sender is the one given; null drops the headers, and existing headers are updated in place |
| ProofpointMessage.Message.AddAttachment | src/main/java/com/proofpoint/secureemailrelay/mail/Message.java:100-102 | null is refused; otherwise appends and changes nothing else |
| ProofpointMessage.Message.AddContent | src/main/java/com/proofpoint/secureemailrelay/mail/Message.java:104-106 | null is refused; otherwise appends and changes nothing else |
| ProofpointMessage.Message.AddTo | src/main/java/com/proofpoint/secureemailrelay/mail/Message.java:108-110 | null is refused; otherwise appends the recipient |
| ProofpointMessage.Message.AddCc | src/main/java/com/proofpoint/secureemailrelay/mail/Message.java:112-114 | null is refused; otherwise appends to cc |
| ProofpointMessage.Message.AddBcc | src/main/java/com/proofpoint/secureemailrelay/mail/Message.java:116-118 | null is refused; otherwise appends to bcc |
| ProofpointMessage.Message.AddReplyTo | src/main/java/com/proofpoint/secureemailrelay/mail/Message.java:120-122 | null is refused; otherwise appends to reply-to |
| ProofpointMessage.SetHeaderFromTwice | src/main/java/com/proofpoint/secureemailrelay/mail/Message.java:90-98 | a second setHeaderFrom reuses the headers object and the last sender wins |
| SendResults.Digits | src/main/java/io/pfpt/secureemailrelay/mail/SendResult.java:33-35 | a number renders as decimal digits with no leading zero |
| SendResults.DigitsRoundTrip | src/main/java/io/pfpt/secureemailrelay/mail/SendResult.java:33-35 | reading the digits back gives the number |
| SendResults.Render | src/main/java/io/pfpt/ser/mail/SendResult.java:51-53 | toString of a member: null has none, a string is itself |
| SendResults.Field | src/main/java/io/pfpt/ser/mail/SendResult.java:51-53 | a missing field is "", a string field its text, a null field a failure |
| SendResults.ParsedMembers | src/main/java/io/pfpt/ser/mail/SendResult.java:40-49 | a blank body gives no members; a body that parses to JSON null gives no map at all |
| SendResults.NewSendResult | src/main/java/io/pfpt/ser/mail/SendResult.java:36-54 | a null response is refused; the raw JSON defaults to ""; unparsable JSON gives empty fields; JSON null fails |
| SendResults.CreateAsync | src/main/java/io/pfpt/secureemailrelay/mail/SendResult.java:38-40 | a null response fails with a NullPointerException inside the future; every failure is a CompletionException |
| SendResults.ReadsServerReply | src/main/java/io/pfpt/secureemailrelay/mail/SendResult.java:18-36 | a reply with the three string members fills the three fields |
| SendResults.NullMemberFails | src/main/java/io/pfpt/ser/mail/SendResult.java:52 | a member that is JSON null makes construction throw |
| SendResults.NumericMemberIsDecimal | src/main/java/io/pfpt/secureemailrelay/mail/SendResult.java:33 | a numeric member becomes its decimal text |
| SendResults.BlankBodyIgnoresParser | src/main/java/io/pfpt/ser/mail/SendResult.java:41 | a blank body never reaches the parser |
| OAuthCore.NewSettings | src/main/java/io/pfpt/ser/http/OAuthHttpClient.java:73-84 | the null checks in source order, then the negative offset; otherwise the settings as given |
| OAuthCore.ReadExpiration | src/main/java/io/pfpt/ser/http/OAuthHttpClient.java:148-155 | an absolute expiry wins over expires_in; each has the offset subtracted; missing both is its own failure |
| OAuthCore.ParseTokenReply | src/main/java/io/pfpt/ser/http/OAuthHttpClient.java:141-156 | a non-object fails; a missing token fails before the expiry is read; success gives the token and its expiry |
| OAuthCore.RefreshOutcome | src/main/java/io/pfpt/ser/http/OAuthHttpClient.java:138-167 | a transport failure is an I/O failure and nothing else is |
| OAuthCore.StageOf | src/main/java/io/pfpt/ser/http/OAuthHttpClient.java:161-167 | I/O failures are reported as send failures, parse failures as such, the rest as unexpected |
| OAuthCore.FormBodyAmbiguous | src/main/java/io/pfpt/ser/http/OAuthHttpClient.java:131-135 | the unencoded form body lets two different credential sets produce the same request |
| OAuthCore.SplitAtFirstAmpersand | src/main/java/io/pfpt/ser/http/OAuthHttpClient.java:131-135 | text without '&' before the first '&' is determined by the joined string |
| OAuthCore.DropPrefix | src/main/java/io/pfpt/ser/http/OAuthHttpClient.java:132 | a common prefix can be dropped from both sides |
| OAuthCore.FormBodyDeterminesCredentials | src/main/java/io/pfpt/ser/http/OAuthHttpClient.java:131-135 | without '&' in id and secret, the form body determines id, secret and scope |
| OAuthCore.WithoutAuthorization | src/main/java/io/pfpt/ser/http/OAuthHttpClient.java:214-218 | the copied headers are original headers, none of them Authorization in any case |
| OAuthCore.WithoutAuthorizationAppend | src/main/java/io/pfpt/ser/http/OAuthHttpClient.java:214-218 | filtering distributes over concatenation |
| OAuthCore.KeepsOtherHeaders | src/main/java/io/pfpt/ser/http/OAuthHttpClient.java:214-218 | every header that is not Authorization is kept |
| OAuthCore.WithoutAuthorizationIdempotent | src/main/java/com/proofpoint/secureemailrelay/http/OAuthHttpClient.java:164-175 | filtering twice is filtering once |
| OAuthCore.NoAuthorizationLeft | src/main/java/com/proofpoint/secureemailrelay/http/OAuthHttpClient.java:164-175 | no Authorization value survives the copy |
| OAuthCore.Copied | src/main/java/io/pfpt/ser/http/OAuthHttpClient.java:212-223 | the copy keeps URI, method, timeout, version and expect-continue, turns an absent body into noBody, and drops Authorization |
| OAuthCore.AuthorizedCarriesOneBearer | src/main/java/io/pfpt/ser/http/OAuthHttpClient.java:188-189 | the sent request carries exactly one Authorization value, the Bearer token |
| OAuthCore.CopyRequest | src/main/java/io/pfpt/ser/http/OAuthHttpClient.java:212-223 | the header loop builds exactly the copy described by Copied |
| OAuthCore.ShortLivedTokenAlreadyExpired | src/main/java/io/pfpt/ser/http/OAuthHttpClient.java:152 | a lifetime no longer than the offset gives a token that is already invalid |
| OAuthCore.LongLivedTokenValid | src/main/java/io/pfpt/ser/http/OAuthHttpClient.java:152 | a lifetime longer than the offset gives a token valid now |
| OAuthCore.AbsoluteExpiryTakesPrecedence | src/main/java/io/pfpt/ser/http/OAuthHttpClient.java:149-152 | with token_expires_date_time present, expires_in is ignored |
| OAuthHttp.OAuthHttpClient.constructor | src/main/java/io/pfpt/ser/http/OAuthHttpClient.java:80-83 | an empty cache with the given settings |
| OAuthHttp.OAuthHttpClient.New | src/main/java/io/pfpt/ser/http/OAuthHttpClient.java:73-84 | fails exactly as the argument checks do; otherwise an empty cache |
| OAuthHttp.OAuthHttpClient.RefreshToken | src/main/java/io/pfpt/ser/http/OAuthHttpClient.java:127-168 | posts the form request; on success token and expiry change together, on failure neither changes and the wrapped fault is reported |
| OAuthHttp.OAuthHttpClient.EnsureToken | src/main/java/io/pfpt/ser/http/OAuthHttpClient.java:93-117 | a valid cache is left alone; otherwise exactly one refresh is made |
| OAuthHttp.OAuthHttpClient.SendAsync | src/main/java/io/pfpt/ser/http/OAuthHttpClient.java:179-202 | a failed refresh gives a request failure and sends nothing; otherwise the authorized copy is sent and a transport failure names method and URI |
| OAuthHttp.SecondSendReusesToken | src/main/java/io/pfpt/ser/http/OAuthHttpClient.java:98 | a second send at the same instant does not refresh when the first left a valid token |
| ProofpointHttpOAuth.OAuthHttpClient.constructor | src/main/java/com/proofpoint/secureemailrelay/http/OAuthHttpClient.java:41-52 | an empty cache with the given settings |
| ProofpointHttpOAuth.OAuthHttpClient.New | src/main/java/com/proofpoint/secureemailrelay/http/OAuthHttpClient.java:41-52 | fails exactly as the argument checks do; otherwise an empty cache |
| ProofpointHttpOAuth.OAuthHttpClient.RefreshToken | src/main/java/com/proofpoint/secureemailrelay/http/OAuthHttpClient.java:86-127 | as the io.pfpt.ser refresh: all or nothing |
| ProofpointHttpOAuth.OAuthHttpClient.EnsureToken | src/main/java/com/proofpoint/secureemailrelay/http/OAuthHttpClient.java:57-81 | a valid cache is left alone; otherwise one refresh, with no retry |
| ProofpointHttpOAuth.OAuthHttpClient.SendAsync | src/main/java/com/proofpoint/secureemailrelay/http/OAuthHttpClient.java:133-158 | as the io.pfpt.ser send, except that a transport failure is a request failure wrapped in a CompletionException |
| ProofpointMailOAuth.MailRefreshRequest | src/main/java/com/proofpoint/secureemailrelay/mail/OAuthHttpClient.java:79-94 | the token request is the shared form POST with a User-Agent header in front |
| ProofpointMailOAuth.ParseError | src/main/java/com/proofpoint/secureemailrelay/mail/OAuthHttpClient.java:96-112 | a missing token or a missing expiry is an IllegalState with its message; other faults come from the libraries |
| ProofpointMailOAuth.OAuthHttpClient.constructor | src/main/java/com/proofpoint/secureemailrelay/mail/OAuthHttpClient.java:33-44 | an empty cache with no refresh outstanding |
| ProofpointMailOAuth.OAuthHttpClient.New | src/main/java/com/proofpoint/secureemailrelay/mail/OAuthHttpClient.java:33-44 | fails exactly as the argument checks do |
| ProofpointMailOAuth.OAuthHttpClient.EnsureTokenAsync | src/main/java/com/proofpoint/secureemailrelay/mail/OAuthHttpClient.java:46-77 | valid cache: a completed future; refresh outstanding: that same future; otherwise a new refresh is started and recorded |
| ProofpointMailOAuth.OAuthHttpClient.CompleteRefresh | src/main/java/com/proofpoint/secureemailrelay/mail/OAuthHttpClient.java:63-112 | the token is written before it is checked and the expiry only on success; the future is cleared whatever the outcome; success iff the shared refresh outcome succeeds |
| ProofpointMailOAuth.OAuthHttpClient.CreateRequestBuilder | src/main/java/com/proofpoint/secureemailrelay/mail/OAuthHttpClient.java:114-141 | User-Agent and Bearer always, Content-Type iff a body; the four verbs; a null body for POST or PUT throws, any other verb is refused |
| ProofpointMailOAuth.OAuthHttpClient.SendWhenReady | src/main/java/com/proofpoint/secureemailrelay/mail/OAuthHttpClient.java:144-161 | a failed token future is passed on; otherwise the built request is sent |
| ProofpointMailOAuth.OAuthHttpClient.GetAsync | src/main/java/com/proofpoint/secureemailrelay/mail/OAuthHttpClient.java:144-146 | a token failure is passed on and nothing is sent; otherwise exactly a bodiless GET with the User-Agent and Bearer headers is sent, and the reply or a transport failure is the outcome |
| ProofpointMailOAuth.OAuthHttpClient.PostAsync | src/main/java/com/proofpoint/secureemailrelay/mail/OAuthHttpClient.java:149-151 | a token failure is passed on; null content fails with a NullPointerException inside the future; otherwise exactly a POST of the content with the User-Agent, Bearer and JSON Content-Type headers is sent, and the reply or a transport failure is the outcome |
| ProofpointMailOAuth.OAuthHttpClient.PutAsync | src/main/java/com/proofpoint/secureemailrelay/mail/OAuthHttpClient.java:154-156 | as PostAsync, with PUT |
| ProofpointMailOAuth.OAuthHttpClient.DeleteAsync | src/main/java/com/proofpoint/secureemailrelay/mail/OAuthHttpClient.java:159-161 | as GetAsync, with DELETE |
| ProofpointMailOAuth.OAuthHttpClient.SendAsync | src/main/java/com/proofpoint/secureemailrelay/mail/OAuthHttpClient.java:164-166 | never sends: the request it builds has no URI, so it always fails |
| ProofpointMailOAuth.ConcurrentCallersShareRefresh | src/main/java/com/proofpoint/secureemailrelay/mail/OAuthHttpClient.java:58-60 | two callers during one refresh share one future and one token request |
| ProofpointMailOAuth.FailedRefreshIsRetriedByNextCaller | src/main/java/com/proofpoint/secureemailrelay/mail/OAuthHttpClient.java:64-71 | after a failed refresh the next caller starts a new one |
| ProofpointMailOAuth.NewTokenKeepsOldExpiry | src/main/java/com/proofpoint/secureemailrelay/mail/OAuthHttpClient.java:99-111 | a reply with a token but no expiry fails yet installs the token next to the old expiry, leaving a cache that counts as valid |
| ProofpointMailOAuth.FailedRefreshValidOnlyWithOldExpiry | src/main/java/com/proofpoint/secureemailrelay/mail/OAuthHttpClient.java:47-49 | a failed refresh leaves a valid cache only with the old expiry and only when there was no token before |
| Clients.Propagated | src/main/java/io/pfpt/ser/mail/Client.java:123-125 | a failure reaching a dependent stage is a CompletionException, and one already is one stays as it is |
| Clients.TokenEndpointDeterminesRegion | src/main/java/io/pfpt/ser/mail/Client.java:83-89 | different regions use different token endpoints |
| Clients.SendEndpointDeterminesRegion | src/main/java/io/pfpt/ser/mail/Client.java:117-121 | different regions use different send endpoints |
| Clients.InitializationCannotFail | src/main/java/io/pfpt/ser/mail/Client.java:91-93 | the token cache's checks always pass from the client, so the initialization catch is unreachable |
| Clients.SentRequestKeepsJson | src/main/java/io/pfpt/ser/mail/Client.java:117-121 | the sent request keeps the JSON body and Content-Type and adds one Bearer header |
| Clients.Client.constructor | src/main/java/io/pfpt/ser/mail/Client.java:72 | holds the token cache and the region |
| Clients.Client.New | src/main/java/io/pfpt/ser/mail/Client.java:72-94 | credentials, HTTP client and region are checked in order with their messages; the cache gets the region's endpoint, an empty scope and 300 seconds |
| Clients.Client.NewForUS | src/main/java/io/pfpt/ser/mail/Client.java:32-34 | the short constructors use the US region |
| Clients.Client.Send | src/main/java/io/pfpt/ser/mail/Client.java:105-126 | null message, then serialization failure; otherwise the authorized JSON POST is sent and the reply read as a SendResult; failures arrive as CompletionExceptions |
| ProofpointClient.Recovered | src/main/java/com/proofpoint/secureemailrelay/mail/Client.java:63-67 | every failure becomes the one HTTP-error IllegalState; success is the SendResult |
| ProofpointClient.InitializationCannotFail | src/main/java/com/proofpoint/secureemailrelay/mail/Client.java:40-42 | the initialization catch is unreachable |
| ProofpointClient.WellFormedReplyIsRead | src/main/java/com/proofpoint/secureemailrelay/mail/Client.java:63-67 | a non-blank object reply with no null members becomes a SendResult holding the response |
| ProofpointClient.Client.constructor | src/main/java/com/proofpoint/secureemailrelay/mail/Client.java:21 | holds the token cache |
| ProofpointClient.Client.New | src/main/java/com/proofpoint/secureemailrelay/mail/Client.java:21-43 | the same checks and messages; the cache gets the fixed token endpoint |
| ProofpointClient.Client.Send | src/main/java/com/proofpoint/secureemailrelay/mail/Client.java:45-68 | null message, then serialization failure; after that every failure is the single HTTP-error IllegalState |

## Left out

- Threads, locks, atomic references and executors are not modelled: each call is one sequential step.
  The mail-package cache's shared future is a numbered handle, and its completion is a separate step.
- When the token refresh completes synchronously, `whenComplete` runs on the calling thread and clears the future before `ensureTokenAsync` stores it, leaving a completed future recorded. The model always completes the refresh as a later step, so it does not capture this.
- Real HTTP, JSON-P and JSON-B parsing and serialization, `Instant.now` and `Instant.parse` are parameters of the model.
- The JSON serialization of `Message`, `Attachment`, `MailUser` and `Content` (their `toString` and JSON-B annotations) is not modelled. Only the `Content` type adapter is.
- `fromFile` and `encodeFileContent` read the file system and are not modelled.
- The `UUID.randomUUID()` content id is a non-blank parameter.
- The MIME table holds a representative subset of the roughly 1000 source entries. Every extension a lemma looks up is either in it with the source's type or absent from the source table too.
- Java's Unicode case folding and `Character.isWhitespace` are modelled for ASCII and the whitespace characters Java lists.
  `toLowerCase` has no locale.
- Header order: `HttpHeaders` groups header values by name; the model keeps the headers in list order.
- `Instant` is whole seconds: no nanoseconds and no overflow.
  `getInt` on a fractional number, which truncates, is not modelled.
  Each call reads the clock once, where the source may read it twice.
- The com `MailUser` and com `DefaultMimeMapper` are not part of this model.
  The com `Message` and `Attachment` use the io.pfpt.ser ones.
- The com `SendResult` is not part of this model. The com client's reply uses the io.pfpt `SendResult`.
- ProofpointClient.Client.Send: modelled over the http-package token cache. Its `OAuthHttpClient` is not imported, so Java resolves it to the same-package (mail) class, which has no two-argument `sendAsync`.
- The com `Content` differs from the io.pfpt copies only in its error messages ("ContentType must not be null.", "ContentType string must not be null.", "Invalid ContentType value: ...").
  The model uses the io.pfpt messages.
- The builder's step interfaces (`InitialStep`, `OptionalStep`) restrict call order at compile time. The model allows any order.
- The com `Message` getters return the live lists, so callers can change a message through them. The model does not capture that aliasing.
- `URI.create` validation of endpoints and request URIs is not modelled: URIs are strings.
- The exception cause chain is flattened to the tags in `Errors.Error`.
  Interpolated parts of messages (the fault detail) are dropped.
- Clients.Client.New: the constructors that create their own `HttpClient` are the `httpClientGiven = true` case.
- The unused `maxRetries` and `backoffMillis` fields of the com http cache have no behaviour to model.
- `getHeaders` and the simple getters return fields and are the fields of the model.
- MimeMapping.DefaultMimeMapper.SetDefaultMimeType: takes a string. A null default, which makes `getMimeType` return null with fallback on and the attachment constructor then fail with a NullPointerException, is not modelled.
- SendResults.NumericMemberIsDecimal: numbers are integers. `BigDecimal.toString` of fractional or exponent values (such as "1.5" or "1E+3") is not modelled.
