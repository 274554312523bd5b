/**
 * io.pfpt.ser Message and its Builder.  The builder collects the parts in
 * lists and optional fields; build() checks the required parts in a fixed
 * order and copies everything into an immutable Message, wrapping the
 * optional header sender in a fresh MessageHeaders object.
 *
 * Every MailUser in the Java program went through its validating
 * constructor, so the model carries the matching invariant: every address
 * the builder holds, and every address of a built message, matches the
 * e-mail pattern.
 */
module Messages {
  import opened Wrappers
  import opened Errors
  import opened EmailSyntax
  import opened MailUsers
  import opened Contents
  import opened Attachments
  import opened Headers

  /** A user built by new MailUser(...): its address passed validation. */
  predicate ValidUser(u: MailUser) {
    MatchesEmailPattern(u.email)
  }

  predicate AllValid(users: seq<MailUser>) {
    forall i :: 0 <= i < |users| ==> ValidUser(users[i])
  }

  datatype Message = Message(
    subject: string,
    from: MailUser,
    headers: MessageHeaders?<MailUser>,
    attachments: seq<Attachment>,
    content: seq<Content>,
    tos: seq<MailUser>,
    cc: seq<MailUser>,
    bcc: seq<MailUser>,
    replyTos: seq<MailUser>)

  /** Every address a message carries went through validation. */
  predicate ValidMessage(m: Message) {
    ValidUser(m.from) && AllValid(m.tos) && AllValid(m.cc) && AllValid(m.bcc) && AllValid(m.replyTos)
  }

  /** getHeaderFrom: the sender held by the headers object, or null when there is none. */
  function HeaderFrom(m: Message): (r: Option<MailUser>)
    reads m.headers
    ensures r.Some? <==> m.headers != null
    ensures r.Some? ==> r.value == m.headers.from
  {
    if m.headers == null then None else Some(m.headers.from)
  }

  /** The builder's fields, gathered into one value. */
  datatype Draft = Draft(
    subject: Option<string>,
    from: Option<MailUser>,
    headerFrom: Option<MailUser>,
    attachments: seq<Attachment>,
    content: seq<Content>,
    tos: seq<MailUser>,
    cc: seq<MailUser>,
    bcc: seq<MailUser>,
    replyTos: seq<MailUser>)

  predicate ValidDraft(d: Draft) {
    (d.from.Some? ==> ValidUser(d.from.value))
    && (d.headerFrom.Some? ==> ValidUser(d.headerFrom.value))
    && AllValid(d.tos) && AllValid(d.cc) && AllValid(d.bcc) && AllValid(d.replyTos)
  }

  /** A draft build() accepts: a sender, a recipient, a subject and a content item. */
  predicate Complete(d: Draft) {
    d.from.Some? && |d.tos| > 0 && d.subject.Some? && |d.content| > 0
  }

  /**
   * The exception build() throws, if any: the four checks in their order, so
   * the first missing part is the one reported.
   */
  function MissingPart(d: Draft): (r: Option<Error>)
    ensures r.None? <==> Complete(d)
    ensures d.from.None? ==> r == Some(IllegalState("Sender (from) is required."))
    ensures d.from.Some? && |d.tos| == 0 ==> r == Some(IllegalState("At least one recipient (to) is required."))
    ensures d.from.Some? && |d.tos| > 0 && d.subject.None? ==> r == Some(IllegalState("Subject is required."))
    ensures d.from.Some? && |d.tos| > 0 && d.subject.Some? && |d.content| == 0 ==>
      r == Some(IllegalState("At least one content item is required."))
  {
    if d.from.None? then Some(IllegalState("Sender (from) is required."))
    else if |d.tos| == 0 then Some(IllegalState("At least one recipient (to) is required."))
    else if d.subject.None? then Some(IllegalState("Subject is required."))
    else if |d.content| == 0 then Some(IllegalState("At least one content item is required."))
    else None
  }

  /**
   * Adding parts never makes a buildable draft unbuildable: every list only
   * grows, and the single-valued parts are kept.
   */
  lemma GrowingKeepsComplete(d: Draft, e: Draft)
    requires Complete(d)
    requires e.from.Some? && e.subject.Some?
    requires |d.tos| <= |e.tos| && |d.content| <= |e.content|
    ensures MissingPart(e).None?
  {
  }

  class MessageBuilder {
    var subject: Option<string>
    var from: Option<MailUser>
    var headerFrom: Option<MailUser>
    var attachments: seq<Attachment>
    var content: seq<Content>
    var tos: seq<MailUser>
    var cc: seq<MailUser>
    var bcc: seq<MailUser>
    var replyTos: seq<MailUser>

    function State(): Draft
      reads this
    {
      Draft(subject, from, headerFrom, attachments, content, tos, cc, bcc, replyTos)
    }

    predicate Valid()
      reads this
    {
      ValidDraft(State())
    }

    /** Message.builder(): every part empty or absent. */
    constructor ()
      ensures Valid()
      ensures State() == Draft(None, None, None, [], [], [], [], [], [])
    {
      subject := None;
      from := None;
      headerFrom := None;
      attachments := [];
      content := [];
      tos := [];
      cc := [];
      bcc := [];
      replyTos := [];
    }

    /** subject(s): null is accepted here and refused only by build(). */
    method Subject(s: Option<string>)
      requires Valid()
      modifies this
      ensures Valid()
      ensures State() == old(State()).(subject := s)
    {
      subject := s;
    }

    /** from(MailUser): null is accepted here and refused only by build(). */
    method From(u: Option<MailUser>)
      requires Valid()
      requires u.Some? ==> ValidUser(u.value)
      modifies this
      ensures Valid()
      ensures State() == old(State()).(from := u)
    {
      from := u;
    }

    /**
     * from(email, name) and from(email): the MailUser constructor runs first,
     * so an invalid address leaves the builder as it was.
     */
    method FromAddress(email: Option<string>, name: Option<string>) returns (err: Option<Error>)
      requires Valid()
      modifies this
      ensures Valid()
      ensures err.None? <==> email.Some? && MatchesEmailPattern(email.value)
      ensures err.None? ==> State() == old(State()).(from := Some(MailUser(email.value, name)))
      ensures err.Some? ==> err.value == ValidateEmail(email).error && State() == old(State())
    {
      var u := NewMailUser(email, name);
      if u.Err? {
        return Some(u.error);
      }
      from := Some(u.value);
      return None;
    }

    /** headerFrom(MailUser): null is accepted and means no header sender. */
    method HeaderFromUser(u: Option<MailUser>)
      requires Valid()
      requires u.Some? ==> ValidUser(u.value)
      modifies this
      ensures Valid()
      ensures State() == old(State()).(headerFrom := u)
    {
      headerFrom := u;
    }

    /** headerFrom(email, name) and headerFrom(email). */
    method HeaderFromAddress(email: Option<string>, name: Option<string>) returns (err: Option<Error>)
      requires Valid()
      modifies this
      ensures Valid()
      ensures err.None? <==> email.Some? && MatchesEmailPattern(email.value)
      ensures err.None? ==> State() == old(State()).(headerFrom := Some(MailUser(email.value, name)))
      ensures err.Some? ==> err.value == ValidateEmail(email).error && State() == old(State())
    {
      var u := NewMailUser(email, name);
      if u.Err? {
        return Some(u.error);
      }
      headerFrom := Some(u.value);
      return None;
    }

    method AddAttachment(a: Option<Attachment>) returns (err: Option<Error>)
      requires Valid()
      modifies this
      ensures Valid()
      ensures a.None? ==> err == Some(NullPointer("Attachment must not be null.")) && State() == old(State())
      ensures a.Some? ==> err.None? && State() == old(State()).(attachments := old(attachments) + [a.value])
    {
      if a.None? {
        return Some(NullPointer("Attachment must not be null."));
      }
      attachments := attachments + [a.value];
      return None;
    }

    method AddContent(c: Option<Content>) returns (err: Option<Error>)
      requires Valid()
      modifies this
      ensures Valid()
      ensures c.None? ==> err == Some(NullPointer("Content must not be null.")) && State() == old(State())
      ensures c.Some? ==> err.None? && State() == old(State()).(content := old(content) + [c.value])
    {
      if c.None? {
        return Some(NullPointer("Content must not be null."));
      }
      content := content + [c.value];
      return None;
    }

    /** addContent(body, type): the Content constructor's checks come first. */
    method AddContentOf(body: Option<string>, contentType: Option<ContentType>) returns (err: Option<Error>)
      requires Valid()
      modifies this
      ensures Valid()
      ensures err.None? <==> body.Some? && contentType.Some?
      ensures body.None? ==> err == Some(NullPointer("Body must not be null."))
      ensures body.Some? && contentType.None? ==> err == Some(NullPointer("Content type must not be null."))
      ensures err.Some? ==> State() == old(State())
      ensures err.None? ==>
        |content| == |old(content)| + 1 && content[..|old(content)|] == old(content)
        && fresh(content[|old(content)|])
        && content[|old(content)|].body == body.value && content[|old(content)|].contentType == contentType.value
        && State() == old(State()).(content := content)
    {
      var c := Content.New(body, contentType);
      if c.Err? {
        return Some(c.error);
      }
      content := content + [c.value];
      return None;
    }

    method AddTo(u: Option<MailUser>) returns (err: Option<Error>)
      requires Valid()
      requires u.Some? ==> ValidUser(u.value)
      modifies this
      ensures Valid()
      ensures u.None? ==> err == Some(NullPointer("Recipient must not be null.")) && State() == old(State())
      ensures u.Some? ==> err.None? && State() == old(State()).(tos := old(tos) + [u.value])
    {
      if u.None? {
        return Some(NullPointer("Recipient must not be null."));
      }
      tos := tos + [u.value];
      return None;
    }

    /** addTo(email, name) and addTo(email). */
    method AddToAddress(email: Option<string>, name: Option<string>) returns (err: Option<Error>)
      requires Valid()
      modifies this
      ensures Valid()
      ensures err.None? <==> email.Some? && MatchesEmailPattern(email.value)
      ensures err.None? ==> State() == old(State()).(tos := old(tos) + [MailUser(email.value, name)])
      ensures err.Some? ==> err.value == ValidateEmail(email).error && State() == old(State())
    {
      var u := NewMailUser(email, name);
      if u.Err? {
        return Some(u.error);
      }
      tos := tos + [u.value];
      return None;
    }

    method AddCc(u: Option<MailUser>) returns (err: Option<Error>)
      requires Valid()
      requires u.Some? ==> ValidUser(u.value)
      modifies this
      ensures Valid()
      ensures u.None? ==> err == Some(NullPointer("CC recipient must not be null.")) && State() == old(State())
      ensures u.Some? ==> err.None? && State() == old(State()).(cc := old(cc) + [u.value])
    {
      if u.None? {
        return Some(NullPointer("CC recipient must not be null."));
      }
      cc := cc + [u.value];
      return None;
    }

    /** addCc(email, name) and addCc(email). */
    method AddCcAddress(email: Option<string>, name: Option<string>) returns (err: Option<Error>)
      requires Valid()
      modifies this
      ensures Valid()
      ensures err.None? <==> email.Some? && MatchesEmailPattern(email.value)
      ensures err.None? ==> State() == old(State()).(cc := old(cc) + [MailUser(email.value, name)])
      ensures err.Some? ==> err.value == ValidateEmail(email).error && State() == old(State())
    {
      var u := NewMailUser(email, name);
      if u.Err? {
        return Some(u.error);
      }
      cc := cc + [u.value];
      return None;
    }

    method AddBcc(u: Option<MailUser>) returns (err: Option<Error>)
      requires Valid()
      requires u.Some? ==> ValidUser(u.value)
      modifies this
      ensures Valid()
      ensures u.None? ==> err == Some(NullPointer("BCC recipient must not be null.")) && State() == old(State())
      ensures u.Some? ==> err.None? && State() == old(State()).(bcc := old(bcc) + [u.value])
    {
      if u.None? {
        return Some(NullPointer("BCC recipient must not be null."));
      }
      bcc := bcc + [u.value];
      return None;
    }

    /** addBcc(email, name) and addBcc(email). */
    method AddBccAddress(email: Option<string>, name: Option<string>) returns (err: Option<Error>)
      requires Valid()
      modifies this
      ensures Valid()
      ensures err.None? <==> email.Some? && MatchesEmailPattern(email.value)
      ensures err.None? ==> State() == old(State()).(bcc := old(bcc) + [MailUser(email.value, name)])
      ensures err.Some? ==> err.value == ValidateEmail(email).error && State() == old(State())
    {
      var u := NewMailUser(email, name);
      if u.Err? {
        return Some(u.error);
      }
      bcc := bcc + [u.value];
      return None;
    }

    method AddReplyTo(u: Option<MailUser>) returns (err: Option<Error>)
      requires Valid()
      requires u.Some? ==> ValidUser(u.value)
      modifies this
      ensures Valid()
      ensures u.None? ==> err == Some(NullPointer("Reply-To recipient must not be null.")) && State() == old(State())
      ensures u.Some? ==> err.None? && State() == old(State()).(replyTos := old(replyTos) + [u.value])
    {
      if u.None? {
        return Some(NullPointer("Reply-To recipient must not be null."));
      }
      replyTos := replyTos + [u.value];
      return None;
    }

    /** addReplyTo(email, name) and addReplyTo(email). */
    method AddReplyToAddress(email: Option<string>, name: Option<string>) returns (err: Option<Error>)
      requires Valid()
      modifies this
      ensures Valid()
      ensures err.None? <==> email.Some? && MatchesEmailPattern(email.value)
      ensures err.None? ==> State() == old(State()).(replyTos := old(replyTos) + [MailUser(email.value, name)])
      ensures err.Some? ==> err.value == ValidateEmail(email).error && State() == old(State())
    {
      var u := NewMailUser(email, name);
      if u.Err? {
        return Some(u.error);
      }
      replyTos := replyTos + [u.value];
      return None;
    }

    /**
     * build(): the first missing part is reported; otherwise the message holds
     * copies of the lists (later additions to the builder do not reach it)
     * and a fresh headers object exactly when a header sender was given.
     */
    method Build() returns (r: Result<Message, Error>)
      requires Valid()
      ensures MissingPart(State()).Some? ==> r == Err(MissingPart(State()).value)
      ensures r.Ok? <==> Complete(State())
      ensures r.Ok? ==>
        var m := r.value;
        m.subject == subject.value && m.from == from.value
        && m.attachments == attachments && m.content == content
        && m.tos == tos && m.cc == cc && m.bcc == bcc && m.replyTos == replyTos
      ensures r.Ok? ==> ValidMessage(r.value) && |r.value.tos| > 0 && |r.value.content| > 0
      ensures r.Ok? ==> HeaderFrom(r.value) == headerFrom
      ensures r.Ok? && r.value.headers != null ==> fresh(r.value.headers)
    {
      var missing := MissingPart(State());
      if missing.Some? {
        return Err(missing.value);
      }
      var headers: MessageHeaders?<MailUser> := null;
      if headerFrom.Some? {
        headers := new MessageHeaders(headerFrom.value);
      }
      return Ok(Message(subject.value, from.value, headers, attachments, content, tos, cc, bcc, replyTos));
    }
  }

  /**
   * A message built before a recipient is added keeps its recipient list: the
   * builder's lists are copied, not shared.
   */
  method BuildThenAddRecipient(b: MessageBuilder, extra: MailUser) returns (m: Result<Message, Error>)
    requires b.Valid() && ValidUser(extra)
    modifies b
    ensures b.Valid()
    ensures m.Ok? <==> Complete(old(b.State()))
    ensures b.tos == old(b.tos) + [extra]
    ensures m.Ok? ==> m.value.tos == old(b.tos) && |b.tos| == |m.value.tos| + 1
  {
    m := b.Build();
    var err := b.AddTo(Some(extra));
  }
}
