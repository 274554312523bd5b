/**
 * com.proofpoint.secureemailrelay Message: a mutable message.  Subject and
 * sender are fixed at construction; the lists grow through the add methods;
 * the header sender lives in a MessageHeaders object that setHeaderFrom
 * creates, updates in place or drops.
 */
module ProofpointMessage {
  import opened Wrappers
  import opened Errors
  import opened MailUsers
  import opened Contents
  import opened Attachments
  import opened Headers

  class Message {
    const subject: string
    const from: MailUser
    var headers: MessageHeaders?<MailUser>
    var attachments: seq<Attachment>
    var content: seq<Content>
    var tos: seq<MailUser>
    var cc: seq<MailUser>
    var bcc: seq<MailUser>
    var replyTos: seq<MailUser>

    constructor (subject: string, from: MailUser)
      ensures this.subject == subject && this.from == from
      ensures headers == null
      ensures attachments == [] && content == [] && tos == [] && cc == [] && bcc == [] && replyTos == []
    {
      this.subject := subject;
      this.from := from;
      headers := null;
      attachments := [];
      content := [];
      tos := [];
      cc := [];
      bcc := [];
      replyTos := [];
    }

    /** new Message(subject, from): subject is checked before sender. */
    static method New(subject: Option<string>, from: Option<MailUser>) returns (r: Result<Message, Error>)
      ensures r.Ok? <==> subject.Some? && from.Some?
      ensures subject.None? ==> r == Err(NullPointer("Subject must not be null."))
      ensures subject.Some? && from.None? ==> r == Err(NullPointer("Sender must not be null."))
      ensures r.Ok? ==>
        fresh(r.value) && r.value.subject == subject.value && r.value.from == from.value
        && r.value.GetHeaderFrom().None?
        && r.value.tos == [] && r.value.cc == [] && r.value.bcc == [] && r.value.replyTos == []
        && r.value.content == [] && r.value.attachments == []
    {
      if subject.None? {
        return Err(NullPointer("Subject must not be null."));
      }
      if from.None? {
        return Err(NullPointer("Sender must not be null."));
      }
      var m := new Message(subject.value, from.value);
      return Ok(m);
    }

    /** new Message(subject, from, headerFrom): the two-argument constructor, then setHeaderFrom. */
    static method NewWithHeaderFrom(subject: Option<string>, from: Option<MailUser>, headerFrom: Option<MailUser>)
      returns (r: Result<Message, Error>)
      ensures r.Ok? <==> subject.Some? && from.Some?
      ensures subject.None? ==> r == Err(NullPointer("Subject must not be null."))
      ensures subject.Some? && from.None? ==> r == Err(NullPointer("Sender must not be null."))
      ensures r.Ok? ==>
        fresh(r.value) && r.value.subject == subject.value && r.value.from == from.value
        && r.value.GetHeaderFrom() == headerFrom
        && (r.value.headers != null ==> fresh(r.value.headers))
        && r.value.tos == [] && r.value.cc == [] && r.value.bcc == [] && r.value.replyTos == []
        && r.value.content == [] && r.value.attachments == []
    {
      r := New(subject, from);
      if r.Ok? {
        r.value.SetHeaderFrom(headerFrom);
      }
    }

    /** getHeaderFrom: null when there is no headers object. */
    function GetHeaderFrom(): (r: Option<MailUser>)
      reads this, headers
      ensures r.Some? <==> headers != null
      ensures r.Some? ==> r.value == headers.from
    {
      if headers == null then None else Some(headers.from)
    }

    /**
     * setHeaderFrom: null drops the headers object; otherwise an existing
     * object is updated in place and a missing one is created.  Afterwards
     * getHeaderFrom returns what was set.
     */
    method SetHeaderFrom(headerFrom: Option<MailUser>)
      modifies this, headers
      ensures GetHeaderFrom() == headerFrom
      ensures headerFrom.None? ==> headers == null
      ensures headerFrom.Some? && old(headers) != null ==> headers == old(headers)
      ensures headerFrom.Some? && old(headers) == null ==> fresh(headers)
      ensures attachments == old(attachments) && content == old(content)
      ensures tos == old(tos) && cc == old(cc) && bcc == old(bcc) && replyTos == old(replyTos)
    {
      if headerFrom.None? {
        headers := null;
      } else if headers == null {
        headers := new MessageHeaders(headerFrom.value);
      } else {
        var err := headers.SetFrom(headerFrom);
      }
    }

    method AddAttachment(a: Option<Attachment>) returns (err: Option<Error>)
      modifies this
      ensures a.None? ==> err == Some(NullPointer("Attachment must not be null.")) && attachments == old(attachments)
      ensures a.Some? ==> err.None? && attachments == old(attachments) + [a.value]
      ensures headers == old(headers) && content == old(content)
      ensures tos == old(tos) && cc == old(cc) && bcc == old(bcc) && replyTos == old(replyTos)
    {
      if a.None? {
        return Some(NullPointer("Attachment must not be null."));
      }
      attachments := attachments + [a.value];
      return None;
    }

    method AddContent(c: Option<Content>) returns (err: Option<Error>)
      modifies this
      ensures c.None? ==> err == Some(NullPointer("Content must not be null.")) && content == old(content)
      ensures c.Some? ==> err.None? && content == old(content) + [c.value]
      ensures headers == old(headers) && attachments == old(attachments)
      ensures tos == old(tos) && cc == old(cc) && bcc == old(bcc) && replyTos == old(replyTos)
    {
      if c.None? {
        return Some(NullPointer("Content must not be null."));
      }
      content := content + [c.value];
      return None;
    }

    method AddTo(u: Option<MailUser>) returns (err: Option<Error>)
      modifies this
      ensures u.None? ==> err == Some(NullPointer("Recipient must not be null.")) && tos == old(tos)
      ensures u.Some? ==> err.None? && tos == old(tos) + [u.value]
      ensures headers == old(headers) && attachments == old(attachments) && content == old(content)
      ensures cc == old(cc) && bcc == old(bcc) && replyTos == old(replyTos)
    {
      if u.None? {
        return Some(NullPointer("Recipient must not be null."));
      }
      tos := tos + [u.value];
      return None;
    }

    method AddCc(u: Option<MailUser>) returns (err: Option<Error>)
      modifies this
      ensures u.None? ==> err == Some(NullPointer("CC recipient must not be null.")) && cc == old(cc)
      ensures u.Some? ==> err.None? && cc == old(cc) + [u.value]
      ensures headers == old(headers) && attachments == old(attachments) && content == old(content)
      ensures tos == old(tos) && bcc == old(bcc) && replyTos == old(replyTos)
    {
      if u.None? {
        return Some(NullPointer("CC recipient must not be null."));
      }
      cc := cc + [u.value];
      return None;
    }

    method AddBcc(u: Option<MailUser>) returns (err: Option<Error>)
      modifies this
      ensures u.None? ==> err == Some(NullPointer("BCC recipient must not be null.")) && bcc == old(bcc)
      ensures u.Some? ==> err.None? && bcc == old(bcc) + [u.value]
      ensures headers == old(headers) && attachments == old(attachments) && content == old(content)
      ensures tos == old(tos) && cc == old(cc) && replyTos == old(replyTos)
    {
      if u.None? {
        return Some(NullPointer("BCC recipient must not be null."));
      }
      bcc := bcc + [u.value];
      return None;
    }

    method AddReplyTo(u: Option<MailUser>) returns (err: Option<Error>)
      modifies this
      ensures u.None? ==> err == Some(NullPointer("Reply-To recipient must not be null.")) && replyTos == old(replyTos)
      ensures u.Some? ==> err.None? && replyTos == old(replyTos) + [u.value]
      ensures headers == old(headers) && attachments == old(attachments) && content == old(content)
      ensures tos == old(tos) && cc == old(cc) && bcc == old(bcc)
    {
      if u.None? {
        return Some(NullPointer("Reply-To recipient must not be null."));
      }
      replyTos := replyTos + [u.value];
      return None;
    }
  }

  /**
   * Setting a header sender twice reuses the one headers object: the second
   * call updates it in place, so the last value set is the one read back.
   */
  method SetHeaderFromTwice(m: Message, first: MailUser, second: MailUser)
    modifies m, m.headers
    ensures m.headers != null && m.GetHeaderFrom() == Some(second)
    ensures old(m.headers) != null ==> m.headers == old(m.headers)
  {
    m.SetHeaderFrom(Some(first));
    var h := m.headers;
    m.SetHeaderFrom(Some(second));
    assert m.headers == h;
  }
}
