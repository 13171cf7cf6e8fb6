/** ArticlePublisher's scenarios against the fake repository, the spy and the dummy logger. */
module ArticlePublisherScenarios {
  import opened Wrappers
  import opened ArticleIds
  import opened Articles
  import opened ArticleRepositoryFakes
  import opened NotificationServiceSpies
  import opened DummyLoggers
  import opened ArticlePublishers

  /** Publishing into an empty fake leaves exactly that article saved, under its identifier, and logs one line. */
  method PublishIntoEmptyFake(authorId: string, title: string, content: string, generatedId: ArticleId, now: nat)
    returns (article: Article, wasSaved: bool, savedCount: nat, saved: Option<Article>, logger: DummyLogger)
    ensures wasSaved && savedCount == 1 && saved == Some(article)
    ensures article.authorId == authorId && article.title == title && article.content == content
    ensures logger.messages == ["Article published: " + generatedId.ToString() + " by " + authorId + " - " + title]
  {
    var repository := new ArticleRepositoryFake([]);
    logger := new DummyLogger();
    var publisher := new ArticlePublisher(repository, Some(logger), None);
    article := publisher.Publish(authorId, title, content, generatedId, now);
    wasSaved := repository.WasSaved(article.id);
    savedCount := |repository.GetAllSaved()|;
    saved := repository.GetSavedArticleById(article.id);
  }

  /** With a spy as notifier, exactly one publication notice for this author and title is sent. */
  method PublishNotifiesSpy(authorId: string, title: string, content: string, generatedId: ArticleId, now: nat)
    returns (notified: bool, count: nat)
    ensures notified && count == 1
  {
    var repository := new ArticleRepositoryFake([]);
    var spy := new NotificationServiceSpy();
    var logger := new DummyLogger();
    var publisher := new ArticlePublisher(repository, Some(logger), Some(spy));
    var article := publisher.Publish(authorId, title, content, generatedId, now);
    notified := spy.WasNotifiedOfArticlePublication(authorId, title);
    count := spy.TotalNotificationsSent();
  }

  /** A spy that was not handed to the publisher hears nothing, and the article is still saved. */
  method PublishWithoutNotifier(authorId: string, title: string, content: string, generatedId: ArticleId, now: nat)
    returns (saved: Option<Article>, article: Article, notified: bool, count: nat)
    ensures saved == Some(article) && !notified && count == 0
  {
    var repository := new ArticleRepositoryFake([]);
    var spy := new NotificationServiceSpy();
    var logger := new DummyLogger();
    var publisher := new ArticlePublisher(repository, Some(logger), None);
    article := publisher.Publish(authorId, title, content, generatedId, now);
    saved := repository.GetSavedArticleById(article.id);
    notified := spy.WasNotifiedOfArticlePublication(authorId, title);
    count := spy.TotalNotificationsSent();
  }
}
