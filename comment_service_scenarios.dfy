/** The mock's scenarios: what a client of CommentServiceMock can conclude from its contracts alone. */
module CommentServiceScenarios {
  import opened ArticleIds
  import opened UserIds
  import opened CommentServiceMocks

  /** One expectation met by an identical call: verification passes and the flag is set. */
  method MatchingCallVerifies(articleId: ArticleId, userId: UserId, content: string)
    returns (r: Verification, wasVerified: bool)
    ensures r == Verified && wasVerified
  {
    var mock := new CommentServiceMock();
    var self := mock.ExpectAddComment(articleId, userId, content);
    mock.AddComment(articleId, userId, content);
    r := mock.Verify();
    wasVerified := mock.WasVerified();
  }

  /** A call with other content fails at the first call, and the flag is set all the same. */
  method DifferentContentFails(articleId: ArticleId, userId: UserId, expectedContent: string, actualContent: string)
    returns (r: Verification, wasVerified: bool)
    requires expectedContent != actualContent
    ensures r == CallMismatch(0, CommentCall(articleId, userId, expectedContent), CommentCall(articleId, userId, actualContent))
    ensures wasVerified
  {
    var mock := new CommentServiceMock();
    var self := mock.ExpectAddComment(articleId, userId, expectedContent);
    mock.AddComment(articleId, userId, actualContent);
    r := mock.Verify();
    wasVerified := mock.WasVerified();
  }

  /** Two expectations and one call: the count check fails before any position is compared. */
  method MissingCallFails(articleId: ArticleId, userId: UserId, content: string)
    returns (r: Verification, wasVerified: bool)
    ensures r == CountMismatch(2, 1) && wasVerified
  {
    var mock := new CommentServiceMock();
    var self := mock.ExpectAddComment(articleId, userId, content);
    self := self.ExpectAddComment(articleId, userId, content);
    mock.AddComment(articleId, userId, content);
    r := mock.Verify();
    wasVerified := mock.WasVerified();
  }

  /** Two distinct expectations met in the opposite order: the first position is reported. */
  method SwappedCallsFail(a1: ArticleId, u1: UserId, c1: string, a2: ArticleId, u2: UserId, c2: string)
    returns (r: Verification)
    requires CommentCall(a1, u1, c1) != CommentCall(a2, u2, c2)
    ensures r == CallMismatch(0, CommentCall(a1, u1, c1), CommentCall(a2, u2, c2))
  {
    var mock := new CommentServiceMock();
    var self := mock.ExpectAddComment(a1, u1, c1);
    self := self.ExpectAddComment(a2, u2, c2);
    mock.AddComment(a2, u2, c2);
    mock.AddComment(a1, u1, c1);
    r := mock.Verify();
  }
}
