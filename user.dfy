/** The User aggregate: a fixed identity, name and creation time, and an editable email. */
module Users {
  import opened Wrappers
  import opened UserIds

  /** The validation failure of the mutator. */
  datatype UserError = EmptyEmail

  /** A mutable user; only `email` can change after creation. */
  class User {
    const id: UserId
    const name: string
    var email: string
    const createdAt: nat

    /**
     * User.create: uses the supplied identifier when there is one, otherwise the identifier
     * the generator produced; neither the name nor the email is validated here.
     */
    constructor Create(name: string, email: string, suppliedId: Option<UserId>, generatedId: UserId, now: nat)
      ensures id == (if suppliedId.Some? then suppliedId.value else generatedId)
      ensures this.name == name && this.email == email && createdAt == now
    {
      id := if suppliedId.Some? then suppliedId.value else generatedId;
      this.name := name;
      this.email := email;
      createdAt := now;
    }

    /**
     * Sets the email. An empty email fails and changes nothing; the current email is left
     * as it is (no assignment at all); any other email replaces it.
     */
    method ChangeEmail(newEmail: string) returns (r: Outcome<UserError>)
      modifies this`email
      ensures r == (if newEmail == "" then Fail(EmptyEmail) else Pass)
      ensures r.Fail? ==> email == old(email)
      ensures r.Pass? ==> email == newEmail
      ensures newEmail == old(email) ==> email == old(email)
    {
      if newEmail == "" {
        return Fail(EmptyEmail);
      }
      r := Pass;
      if newEmail == email {
        return;
      }
      email := newEmail;
    }
  }
}
