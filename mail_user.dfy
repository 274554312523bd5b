/** io.pfpt.ser MailUser: an immutable, validated e-mail address with an optional display name. */
module MailUsers {
  import opened Wrappers
  import opened Errors
  import opened Java
  import opened EmailSyntax

  datatype MailUser = MailUser(email: string, name: Option<string>)

  /**
   * validateAndSetEmail: null is a NullPointerException, a blank address and
   * an address outside the pattern are IllegalArgumentExceptions.
   */
  function ValidateEmail(email: Option<string>): (r: Result<string, Error>)
    ensures r.Ok? <==> email.Some? && MatchesEmailPattern(email.value)
    ensures r.Ok? ==> r.value == email.value
    ensures email.None? ==> r == Err(NullPointer("Email must not be null."))
    ensures email.Some? && IsBlank(email.value) ==>
      r == Err(IllegalArgument("Email must not be empty or contain only whitespace."))
  {
    if email.None? then
      Err(NullPointer("Email must not be null."))
    else if IsBlank(email.value) then
      Err(IllegalArgument("Email must not be empty or contain only whitespace."))
    else if !MatchesEmailPattern(email.value) then
      Err(IllegalArgument("Invalid email format: '" + email.value + "'."))
    else
      BlankNeverMatchesOk(email.value);
      Ok(email.value)
  }

  lemma BlankNeverMatchesOk(s: string)
    ensures MatchesEmailPattern(s) ==> !IsBlank(s)
  {
    if IsBlank(s) {
      BlankNeverMatches(s);
    }
  }

  /** new MailUser(email, name): the address is validated, the name is kept as given (null included). */
  function NewMailUser(email: Option<string>, name: Option<string>): (r: Result<MailUser, Error>)
    ensures r.Ok? <==> email.Some? && MatchesEmailPattern(email.value)
    ensures r.Ok? ==> r.value.email == email.value && r.value.name == name
    ensures r.Err? ==> r.error == ValidateEmail(email).error
  {
    match ValidateEmail(email)
    case Ok(address) => Ok(MailUser(address, name))
    case Err(e) => Err(e)
  }

  /** new MailUser(email): the same validation, with no name. */
  function NewMailUserWithoutName(email: Option<string>): (r: Result<MailUser, Error>)
    ensures r.Ok? <==> email.Some? && MatchesEmailPattern(email.value)
    ensures r.Ok? ==> r.value.email == email.value && r.value.name.None?
  {
    NewMailUser(email, None)
  }

  /** Every constructed user carries an address the pattern accepts, hence a non-blank one with an '@'. */
  lemma ConstructedAddressIsValid(email: Option<string>, name: Option<string>)
    requires NewMailUser(email, name).Ok?
    ensures var u := NewMailUser(email, name).value;
      MatchesEmailPattern(u.email) && !IsBlank(u.email) && '@' in u.email
  {
    var u := NewMailUser(email, name).value;
    BlankNeverMatchesOk(u.email);
    var i := SplitOfMatch(u.email);
  }

  lemma Examples()
    ensures NewMailUser(Some("user@example.com"), Some("User")) == Ok(MailUser("user@example.com", Some("User")))
    ensures NewMailUser(Some("User@example.com"), None).Err?
    ensures NewMailUser(None, None) == Err(NullPointer("Email must not be null."))
    ensures NewMailUser(Some("  "), None) == Err(IllegalArgument("Email must not be empty or contain only whitespace."))
  {
    AcceptsPlainAddress();
    RejectsUpperCase();
    assert IsBlank("  ");
  }
}
