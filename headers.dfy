/**
 * MessageHeaders: a holder for the header "From" address, which is never
 * null.  The class is the same in all three packages; the type of user it
 * holds is a parameter.
 */
module Headers {
  import opened Wrappers
  import opened Errors

  class MessageHeaders<User> {
    var from: User

    constructor (from: User)
      ensures this.from == from
    {
      this.from := from;
    }

    /** new MessageHeaders(from): null is refused. */
    static method New(from: Option<User>) returns (r: Result<MessageHeaders<User>, Error>)
      ensures from.None? <==> r == Err(NullPointer("Header from address must not be null."))
      ensures r.Ok? <==> from.Some?
      ensures r.Ok? ==> fresh(r.value) && r.value.from == from.value
    {
      if from.None? {
        return Err(NullPointer("Header from address must not be null."));
      }
      var h := new MessageHeaders(from.value);
      return Ok(h);
    }

    /** setFrom: null is refused and the previous address kept. */
    method SetFrom(from: Option<User>) returns (err: Option<Error>)
      modifies this
      ensures from.None? ==> err == Some(NullPointer("Header from address must not be null.")) && this.from == old(this.from)
      ensures from.Some? ==> err.None? && this.from == from.value
    {
      if from.None? {
        return Some(NullPointer("Header from address must not be null."));
      }
      this.from := from.value;
      return None;
    }
  }
}
