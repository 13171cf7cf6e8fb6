/** The identifier of a user: an immutable, non-empty string token compared by value. */
module UserIds {
  import opened Wrappers

  /** Why a UserId could not be constructed. */
  datatype UserIdError = EmptyUserId

  /** The token an identifier wraps. Only the checked subset type UserId is handed out. */
  datatype UserIdToken = UserIdToken(value: string) {

    /** The plain string representation. */
    function ToString(): (s: string)
      ensures s == value
    {
      value
    }

    /** Two identifiers are equal when their tokens match; an absent identifier equals nothing. */
    function Equals(other: Option<UserId>): (r: bool)
      ensures r <==> other.Some? && other.value.ToString() == ToString()
      ensures r <==> other == Some(this)
    {
      other.Some? && value == other.value.value
    }
  }

  /** Every UserId passed the constructor's check, so its token is never empty. */
  type UserId = id: UserIdToken | id.value != "" witness UserIdToken("0")

  /** Re-creates an identifier from its string representation; the empty string is refused. */
  function FromString(id: string): (r: Result<UserId, UserIdError>)
    ensures r.Success? <==> id != ""
    ensures r.Success? ==> r.value.ToString() == id
    ensures r.Failure? ==> r.error == EmptyUserId
  {
    if id == "" then Failure(EmptyUserId) else Success(UserIdToken(id))
  }

  /** A brand-new identifier around the token the uuid generator produced (it never produces ""). */
  function Create(uuid: string): (r: UserId)
    requires uuid != ""
    ensures FromString(uuid) == Success(r)
  {
    UserIdToken(uuid)
  }

  /** Printing an identifier and reading it back gives the same identifier. */
  lemma ToStringRoundTrip(id: UserId)
    ensures FromString(id.ToString()) == Success(id)
  {
  }

  /** Value equality is an equivalence relation. */
  lemma EqualsIsEquivalence(a: UserId, b: UserId, c: UserId)
    ensures a.Equals(Some(a))
    ensures a.Equals(Some(b)) ==> b.Equals(Some(a))
    ensures a.Equals(Some(b)) && b.Equals(Some(c)) ==> a.Equals(Some(c))
    ensures !a.Equals(None)
  {
  }
}
