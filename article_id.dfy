/** The identifier of an article: an immutable, non-empty string token compared by value. */
module ArticleIds {
  import opened Wrappers

  /** Why an ArticleId could not be constructed. */
  datatype ArticleIdError = EmptyArticleId

  /** The token an identifier wraps. Only the checked subset type ArticleId is handed out. */
  datatype ArticleIdToken = ArticleIdToken(value: string) {

    /** The plain string representation. */
    function ToString(): (s: string)
      ensures s == value
    {
      value
    }

    /** Two identifiers are equal when their tokens match; an absent identifier equals nothing. */
    function Equals(other: Option<ArticleId>): (r: bool)
      ensures r <==> other.Some? && other.value.ToString() == ToString()
      ensures r <==> other == Some(this)
    {
      other.Some? && value == other.value.value
    }
  }

  /** Every ArticleId passed the constructor's check, so its token is never empty. */
  type ArticleId = id: ArticleIdToken | id.value != "" witness ArticleIdToken("0")

  /** Re-creates an identifier from its string representation; the empty string is refused. */
  function FromString(id: string): (r: Result<ArticleId, ArticleIdError>)
    ensures r.Success? <==> id != ""
    ensures r.Success? ==> r.value.ToString() == id
    ensures r.Failure? ==> r.error == EmptyArticleId
  {
    if id == "" then Failure(EmptyArticleId) else Success(ArticleIdToken(id))
  }

  /** A brand-new identifier around the token the uuid generator produced (it never produces ""). */
  function Create(uuid: string): (r: ArticleId)
    requires uuid != ""
    ensures FromString(uuid) == Success(r)
  {
    ArticleIdToken(uuid)
  }

  /** Printing an identifier and reading it back gives the same identifier. */
  lemma ToStringRoundTrip(id: ArticleId)
    ensures FromString(id.ToString()) == Success(id)
  {
  }

  /** Value equality is an equivalence relation. */
  lemma EqualsIsEquivalence(a: ArticleId, b: ArticleId, c: ArticleId)
    ensures a.Equals(Some(a))
    ensures a.Equals(Some(b)) ==> b.Equals(Some(a))
    ensures a.Equals(Some(b)) && b.Equals(Some(c)) ==> a.Equals(Some(c))
    ensures !a.Equals(None)
  {
  }
}
