/** ArticlePublisher: creates an article, saves it, then optionally notifies and optionally logs. */
module ArticlePublishers {
  import opened Wrappers
  import opened ArticleIds
  import opened Articles
  import opened ArticleRepositoryFakes
  import opened NotificationServiceSpies
  import opened DummyLoggers

  /** One call the publisher makes on a collaborator, in the order it makes them. */
  datatype PublishStep =
    | SavedArticle(article: Article)
    | NotifiedPublication(authorId: string, articleId: ArticleId, title: string)
    | LoggedPublication(message: string)

  /** The one-line summary the publisher logs. */
  function PublicationMessage(article: Article): string
    reads article
  {
    "Article published: " + article.id.ToString() + " by " + article.authorId + " - " + article.title
  }

  class ArticlePublisher {
    const repository: ArticleRepositoryFake
    const logger: Option<DummyLogger>
    const notificationService: Option<NotificationServiceSpy>
    /** Every collaborator call made so far, oldest first. */
    ghost var interactions: seq<PublishStep>

    constructor (repository: ArticleRepositoryFake, logger: Option<DummyLogger>,
                 notificationService: Option<NotificationServiceSpy>)
      ensures this.repository == repository && this.logger == logger
      ensures this.notificationService == notificationService
      ensures interactions == []
    {
      this.repository := repository;
      this.logger := logger;
      this.notificationService := notificationService;
      interactions := [];
    }

    /** The state `Publish` may change besides the repository: the notifier's, when there is one. */
    ghost function NotifierFrame(): set<object>
    {
      if notificationService.Some? then {notificationService.value} else {}
    }

    /** The logger's state, when there is a logger. */
    ghost function LoggerFrame(): set<object>
    {
      if logger.Some? then {logger.value} else {}
    }

    /**
     * Creates the article with a fresh identifier (`generatedId`, from the generator) and the clock
     * reading `now`, saves it, then notifies if a notifier is configured, then logs if a logger is,
     * and returns the article that was saved.
     */
    method Publish(authorId: string, title: string, content: string, generatedId: ArticleId, now: nat)
      returns (article: Article)
      requires repository.Valid()
      modifies this, repository, NotifierFrame(), LoggerFrame()
      ensures fresh(article)
      ensures article.id == generatedId && article.authorId == authorId
      ensures article.title == title && article.content == content
      ensures article.createdAt == now && article.updatedAt == now
      ensures repository.Valid()
      ensures repository.articles == old(repository.articles)[generatedId.ToString() := article]
      ensures repository.order == if generatedId.ToString() in old(repository.articles) then old(repository.order)
                                  else old(repository.order) + [generatedId.ToString()]
      ensures repository.FindById(article.id) == Some(article)
      ensures notificationService.Some? ==>
        notificationService.value.calls == old(notificationService.value.calls) + [PublicationRecord(authorId, generatedId, title, now)]
      ensures logger.Some? ==> logger.value.messages == old(logger.value.messages) + [PublicationMessage(article)]
      ensures interactions == old(interactions) + [SavedArticle(article)]
        + (if notificationService.Some? then [NotifiedPublication(authorId, generatedId, title)] else [])
        + (if logger.Some? then [LoggedPublication(PublicationMessage(article))] else [])
    {
      article := new Article.Create(authorId, title, content, None, generatedId, now);

      repository.Save(article);
      interactions := interactions + [SavedArticle(article)];

      if notificationService.Some? {
        notificationService.value.NotifyArticlePublished(article.authorId, article.id, article.title, now);
        interactions := interactions + [NotifiedPublication(article.authorId, article.id, article.title)];
      }

      if logger.Some? {
        var message := PublicationMessage(article);
        logger.value.Log(message);
        interactions := interactions + [LoggedPublication(message)];
      }
    }
  }
}
