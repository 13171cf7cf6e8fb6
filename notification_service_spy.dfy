/**
 * A spy NotificationService: every notification appends one record to a log, and existential
 * queries, a count and the last timestamp are read off that log afterwards.
 */
module NotificationServiceSpies {
  import opened Wrappers
  import opened ArticleIds

  /** The notification methods the spy implements and records by name. */
  datatype NotificationMethod = ArticlePublished | UserEmailChanged | UserRegistered

  /** One recorded argument: the spy stores strings and article identifiers alike. */
  datatype Argument = Text(text: string) | ArticleIdArg(id: ArticleId)

  /** One log entry: the method called, its arguments in order, and the clock reading at the call. */
  datatype RecordedCall = RecordedCall(methodName: NotificationMethod, args: seq<Argument>, timestamp: nat)

  /** `args[i] === s`: false when position `i` is missing or holds something other than the string `s`. */
  predicate ArgIs(call: RecordedCall, i: nat, s: string)
  {
    i < |call.args| && call.args[i] == Text(s)
  }

  /** `Array.prototype.some` over the log. */
  function AnyCall(log: seq<RecordedCall>, p: RecordedCall -> bool): (r: bool)
    ensures r <==> exists i :: 0 <= i < |log| && p(log[i])
  {
    if log == [] then false
    else if p(log[0]) then true
    else
      var r := AnyCall(log[1..], p);
      assert forall i :: 1 <= i < |log| ==> log[i] == log[1..][i - 1];
      r
  }

  /** A publication notice for this author and title; the article identifier (argument 1) is ignored. */
  predicate IsArticlePublication(call: RecordedCall, authorId: string, title: string)
  {
    call.methodName == ArticlePublished && ArgIs(call, 0, authorId) && ArgIs(call, 2, title)
  }

  predicate IsUserEmailChange(call: RecordedCall, userId: string, message: string)
  {
    call.methodName == UserEmailChanged && ArgIs(call, 0, userId) && ArgIs(call, 1, message)
  }

  predicate IsUserRegistration(call: RecordedCall, userId: string, email: string)
  {
    call.methodName == UserRegistered && ArgIs(call, 0, userId) && ArgIs(call, 1, email)
  }

  /** The record `notifyArticlePublished` leaves in the log. */
  function PublicationRecord(authorId: string, articleId: ArticleId, title: string, now: nat): RecordedCall
  {
    RecordedCall(ArticlePublished, [Text(authorId), ArticleIdArg(articleId), Text(title)], now)
  }

  /** Appending a record keeps every earlier answer and adds exactly the new record's own. */
  lemma AnyCallAppend(log: seq<RecordedCall>, call: RecordedCall, p: RecordedCall -> bool)
    ensures AnyCall(log + [call], p) <==> AnyCall(log, p) || p(call)
  {
    var extended := log + [call];
    assert extended[|log|] == call;
    assert forall i :: 0 <= i < |log| ==> extended[i] == log[i];
  }

  /** Which article was published never affects the publication query. */
  lemma PublicationQueryIgnoresArticleId(authorId: string, id1: ArticleId, id2: ArticleId, title: string,
                                         now: nat, queriedAuthor: string, queriedTitle: string)
    ensures IsArticlePublication(PublicationRecord(authorId, id1, title, now), queriedAuthor, queriedTitle)
        <==> IsArticlePublication(PublicationRecord(authorId, id2, title, now), queriedAuthor, queriedTitle)
    ensures IsArticlePublication(PublicationRecord(authorId, id1, title, now), queriedAuthor, queriedTitle)
        <==> queriedAuthor == authorId && queriedTitle == title
  {
  }

  /** The spy. Its log is append-only until `Clear`. */
  class NotificationServiceSpy {
    var calls: seq<RecordedCall>

    constructor ()
      ensures calls == []
    {
      calls := [];
    }

    method NotifyArticlePublished(authorId: string, articleId: ArticleId, title: string, now: nat)
      modifies this
      ensures calls == old(calls) + [PublicationRecord(authorId, articleId, title, now)]
      ensures WasNotifiedOfArticlePublication(authorId, title)
      ensures TotalNotificationsSent() == old(TotalNotificationsSent()) + 1
      ensures LastNotificationTime() == Some(now)
    {
      RecordCall(ArticlePublished, [Text(authorId), ArticleIdArg(articleId), Text(title)], now);
      assert IsArticlePublication(calls[|calls| - 1], authorId, title);
    }

    method NotifyUserEmailChanged(userId: string, message: string, now: nat)
      modifies this
      ensures calls == old(calls) + [RecordedCall(UserEmailChanged, [Text(userId), Text(message)], now)]
      ensures WasNotifiedOfUserEmailChange(userId, message)
      ensures TotalNotificationsSent() == old(TotalNotificationsSent()) + 1
      ensures LastNotificationTime() == Some(now)
    {
      RecordCall(UserEmailChanged, [Text(userId), Text(message)], now);
      assert IsUserEmailChange(calls[|calls| - 1], userId, message);
    }

    method NotifyUserRegistered(userId: string, email: string, now: nat)
      modifies this
      ensures calls == old(calls) + [RecordedCall(UserRegistered, [Text(userId), Text(email)], now)]
      ensures WasNotifiedOfUserRegistration(userId, email)
      ensures TotalNotificationsSent() == old(TotalNotificationsSent()) + 1
      ensures LastNotificationTime() == Some(now)
    {
      RecordCall(UserRegistered, [Text(userId), Text(email)], now);
      assert IsUserRegistration(calls[|calls| - 1], userId, email);
    }

    /** Appends one record stamped with the current clock reading; earlier records stay as they were. */
    method RecordCall(methodName: NotificationMethod, args: seq<Argument>, now: nat)
      modifies this
      ensures calls == old(calls) + [RecordedCall(methodName, args, now)]
    {
      calls := calls + [RecordedCall(methodName, args, now)];
    }

    /** Empties the log, after which every query answers as for a fresh spy. */
    method Clear()
      modifies this
      ensures calls == []
      ensures TotalNotificationsSent() == 0 && LastNotificationTime() == None
      ensures forall a, t :: !WasNotifiedOfArticlePublication(a, t)
      ensures forall u, m :: !WasNotifiedOfUserEmailChange(u, m)
      ensures forall u, e :: !WasNotifiedOfUserRegistration(u, e)
    {
      calls := [];
    }

    function WasNotifiedOfArticlePublication(authorId: string, title: string): (r: bool)
      reads this
      ensures r <==> exists i :: 0 <= i < |calls| && IsArticlePublication(calls[i], authorId, title)
    {
      AnyCall(calls, c => IsArticlePublication(c, authorId, title))
    }

    function WasNotifiedOfUserEmailChange(userId: string, message: string): (r: bool)
      reads this
      ensures r <==> exists i :: 0 <= i < |calls| && IsUserEmailChange(calls[i], userId, message)
    {
      AnyCall(calls, c => IsUserEmailChange(c, userId, message))
    }

    function WasNotifiedOfUserRegistration(userId: string, email: string): (r: bool)
      reads this
      ensures r <==> exists i :: 0 <= i < |calls| && IsUserRegistration(calls[i], userId, email)
    {
      AnyCall(calls, c => IsUserRegistration(c, userId, email))
    }

    function TotalNotificationsSent(): (n: nat)
      reads this
      ensures n == |calls|
      ensures n == 0 <==> LastNotificationTime().None?
    {
      |calls|
    }

    /** The timestamp of the newest record, absent exactly when the log is empty. */
    function LastNotificationTime(): (t: Option<nat>)
      reads this
      ensures t.None? <==> calls == []
      ensures t.Some? ==> t.value == calls[|calls| - 1].timestamp
    {
      if |calls| > 0 then Some(calls[|calls| - 1].timestamp) else None
    }
  }
}
