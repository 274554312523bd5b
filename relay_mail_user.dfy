/**
 * io.pfpt.secureemailrelay MailUser: the same validated address, but held in
 * a mutable object whose setEmail validates before assigning, so a refused
 * address leaves the previous one in place.
 */
module RelayMailUser {
  import opened Wrappers
  import opened Errors
  import opened EmailSyntax
  import MailUsers

  class MailUser {
    var email: string
    var name: Option<string>

    /** The address always satisfies the pattern. */
    predicate Valid()
      reads this
    {
      MatchesEmailPattern(email)
    }

    /** The constructor after setEmail has accepted the address. */
    constructor (email: string, name: Option<string>)
      requires MatchesEmailPattern(email)
      ensures Valid()
      ensures this.email == email && this.name == name
    {
      this.email := email;
      this.name := name;
    }

    /** new MailUser(email, name): setEmail, then setName; a refused address is an exception. */
    static method New(email: Option<string>, name: Option<string>) returns (r: Result<MailUser, Error>)
      ensures r.Err? <==> MailUsers.ValidateEmail(email).Err?
      ensures r.Err? ==> r.error == MailUsers.ValidateEmail(email).error
      ensures r.Ok? ==> fresh(r.value) && r.value.Valid() && r.value.email == email.value && r.value.name == name
    {
      var checked := MailUsers.ValidateEmail(email);
      if checked.Err? {
        return Err(checked.error);
      }
      var u := new MailUser(checked.value, name);
      return Ok(u);
    }

    /** setEmail: validates, then assigns; on failure nothing changes. */
    method SetEmail(email: Option<string>) returns (err: Option<Error>)
      requires Valid()
      modifies this
      ensures Valid()
      ensures MailUsers.ValidateEmail(email).Ok? ==> err.None? && this.email == email.value
      ensures MailUsers.ValidateEmail(email).Err? ==>
        err == Some(MailUsers.ValidateEmail(email).error) && this.email == old(this.email)
      ensures name == old(name)
    {
      var checked := MailUsers.ValidateEmail(email);
      if checked.Err? {
        return Some(checked.error);
      }
      this.email := checked.value;
      return None;
    }

    /** setName: any name, null included. */
    method SetName(name: Option<string>)
      modifies this
      ensures this.name == name && email == old(email)
    {
      this.name := name;
    }
  }
}
