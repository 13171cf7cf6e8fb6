/** The spy's existential queries over a log of two publications. */
module NotificationSpyScenarios {
  import opened Wrappers
  import opened ArticleIds
  import opened NotificationServiceSpies

  /** Two publications: each (author, title) pair that was sent is found, a mixed pair is not. */
  method TwoPublications(id1: ArticleId, id2: ArticleId, t1: nat, t2: nat)
    returns (firstFound: bool, mixedFound: bool, count: nat, last: Option<nat>)
    ensures firstFound && !mixedFound && count == 2 && last == Some(t2)
  {
    var spy := new NotificationServiceSpy();
    spy.NotifyArticlePublished("auth1", id1, "T1", t1);
    spy.NotifyArticlePublished("auth2", id2, "T2", t2);
    firstFound := spy.WasNotifiedOfArticlePublication("auth1", "T1");
    mixedFound := spy.WasNotifiedOfArticlePublication("auth1", "T2");
    count := spy.TotalNotificationsSent();
    last := spy.LastNotificationTime();
  }

  /** After `Clear` a used spy answers as a fresh one. */
  method ClearForgetsEverything(id: ArticleId, now: nat)
    returns (found: bool, count: nat, last: Option<nat>)
    ensures !found && count == 0 && last == None
  {
    var spy := new NotificationServiceSpy();
    spy.NotifyArticlePublished("auth1", id, "T1", now);
    spy.NotifyUserRegistered("user1", "a@x.com", now);
    spy.Clear();
    found := spy.WasNotifiedOfArticlePublication("auth1", "T1");
    count := spy.TotalNotificationsSent();
    last := spy.LastNotificationTime();
  }
}
