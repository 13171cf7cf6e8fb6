/** The Article aggregate: a fixed identity and author, an editable title and content, and timestamps. */
module Articles {
  import opened Wrappers
  import opened ArticleIds

  /** The validation failures of the mutators. */
  datatype ArticleError = EmptyTitle | EmptyContent

  /**
   * A mutable article. Timestamps are readings of an injected natural-number clock;
   * `Valid` is the invariant that an article is never updated before it was created.
   */
  class Article {
    const id: ArticleId
    const authorId: string
    var title: string
    var content: string
    const createdAt: nat
    var updatedAt: nat

    ghost predicate Valid()
      reads this
    {
      createdAt <= updatedAt
    }

    /**
     * Article.create: uses the supplied identifier when there is one, otherwise the identifier
     * the generator produced; neither the title nor the content is validated here.
     */
    constructor Create(authorId: string, title: string, content: string,
                       suppliedId: Option<ArticleId>, generatedId: ArticleId, now: nat)
      ensures id == (if suppliedId.Some? then suppliedId.value else generatedId)
      ensures this.authorId == authorId && this.title == title && this.content == content
      ensures createdAt == now && updatedAt == createdAt
      ensures Valid()
    {
      id := if suppliedId.Some? then suppliedId.value else generatedId;
      this.authorId := authorId;
      this.title := title;
      this.content := content;
      createdAt := now;
      updatedAt := now;
    }

    /** Replaces the title and touches `updatedAt`; an empty title fails and changes nothing. */
    method ChangeTitle(newTitle: string, now: nat) returns (r: Outcome<ArticleError>)
      modifies this
      ensures r == (if newTitle == "" then Fail(EmptyTitle) else Pass)
      ensures r.Fail? ==> title == old(title) && content == old(content) && updatedAt == old(updatedAt)
      ensures r.Pass? ==> title == newTitle && content == old(content) && updatedAt == now
      ensures old(Valid()) && old(updatedAt) <= now ==> Valid()
    {
      if newTitle == "" {
        return Fail(EmptyTitle);
      }
      title := newTitle;
      Touch(now);
      r := Pass;
    }

    /** Replaces the content and touches `updatedAt`; an empty content fails and changes nothing. */
    method ChangeContent(newContent: string, now: nat) returns (r: Outcome<ArticleError>)
      modifies this
      ensures r == (if newContent == "" then Fail(EmptyContent) else Pass)
      ensures r.Fail? ==> title == old(title) && content == old(content) && updatedAt == old(updatedAt)
      ensures r.Pass? ==> content == newContent && title == old(title) && updatedAt == now
      ensures old(Valid()) && old(updatedAt) <= now ==> Valid()
    {
      if newContent == "" {
        return Fail(EmptyContent);
      }
      content := newContent;
      Touch(now);
      r := Pass;
    }

    /** Records the current clock reading as the time of the last update. */
    method Touch(now: nat)
      modifies this`updatedAt
      ensures updatedAt == now
    {
      updatedAt := now;
    }
  }
}
