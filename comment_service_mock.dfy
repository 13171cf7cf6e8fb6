/**
 * A mock CommentService: it records expected and actual `addComment` calls and, on `verify`,
 * checks them in one fail-fast pass (count first, then position by position).
 */
module CommentServiceMocks {
  import opened Wrappers
  import opened ArticleIds
  import opened UserIds

  /** The arguments of one `addComment` call, expected or actual. */
  datatype CommentCall = CommentCall(articleId: ArticleId, userId: UserId, content: string)

  /** An expected call is met when both identifiers are value-equal and the contents are identical. */
  predicate Matches(expected: CommentCall, actual: CommentCall)
  {
    && expected.articleId.Equals(Some(actual.articleId))
    && expected.userId.Equals(Some(actual.userId))
    && expected.content == actual.content
  }

  /**
   * What `verify` concludes: it returns normally, or throws the count error carrying both counts,
   * or throws for the call at `index` (zero-based; the message numbers it index + 1) carrying both records.
   */
  datatype Verification =
    | Verified
    | CountMismatch(expectedCount: nat, actualCount: nat)
    | CallMismatch(index: nat, expected: CommentCall, actual: CommentCall)

  /** The first position at or after `from` where the two lists disagree, if any. */
  function FirstMismatch(expected: seq<CommentCall>, actual: seq<CommentCall>, from: nat): (r: Option<nat>)
    requires |expected| == |actual| && from <= |expected|
    ensures r.None? <==> forall j :: from <= j < |expected| ==> Matches(expected[j], actual[j])
    ensures r.Some? ==> from <= r.value < |expected| && !Matches(expected[r.value], actual[r.value])
    ensures r.Some? ==> forall j :: from <= j < r.value ==> Matches(expected[j], actual[j])
    decreases |expected| - from
  {
    if from == |expected| then None
    else if !Matches(expected[from], actual[from]) then Some(from)
    else FirstMismatch(expected, actual, from + 1)
  }

  /** The reference definition of `verify`'s verdict on an expectation list and a call list. */
  function Verdict(expected: seq<CommentCall>, actual: seq<CommentCall>): (r: Verification)
    ensures r.Verified? <==> |expected| == |actual| && forall i :: 0 <= i < |expected| ==> Matches(expected[i], actual[i])
    ensures r.CountMismatch? <==> |expected| != |actual|
    ensures r.CountMismatch? ==> r.expectedCount == |expected| && r.actualCount == |actual|
    ensures r.CallMismatch? ==> && r.index < |expected| == |actual|
                                && r.expected == expected[r.index] && r.actual == actual[r.index]
                                && !Matches(r.expected, r.actual)
                                && forall j :: 0 <= j < r.index ==> Matches(expected[j], actual[j])
  {
    if |actual| != |expected| then CountMismatch(|expected|, |actual|)
    else match FirstMismatch(expected, actual, 0)
      case None => Verified
      case Some(i) => CallMismatch(i, expected[i], actual[i])
  }

  /** Because identifiers compare by value, an expected call is met exactly by an identical call. */
  lemma MatchesIsEquality(expected: CommentCall, actual: CommentCall)
    ensures Matches(expected, actual) <==> expected == actual
  {
  }

  /** Verification passes exactly when the calls made are the expected calls, in the expected order. */
  lemma VerifiedIffSameCalls(expected: seq<CommentCall>, actual: seq<CommentCall>)
    ensures Verdict(expected, actual) == Verified <==> expected == actual
  {
  }

  /** The mock: two append-only call lists and a flag set by `verify`. */
  class CommentServiceMock {
    var expectedCalls: seq<CommentCall>
    var actualCalls: seq<CommentCall>
    var verified: bool

    constructor ()
      ensures expectedCalls == [] && actualCalls == [] && !verified
    {
      expectedCalls := [];
      actualCalls := [];
      verified := false;
    }

    /** The real call: always accepted, only recorded; judgement is deferred to `Verify`. */
    method AddComment(articleId: ArticleId, userId: UserId, content: string)
      modifies this
      ensures actualCalls == old(actualCalls) + [CommentCall(articleId, userId, content)]
      ensures expectedCalls == old(expectedCalls) && verified == old(verified)
    {
      actualCalls := actualCalls + [CommentCall(articleId, userId, content)];
    }

    /** Registers one expected call; returns the mock itself so that registrations can be chained. */
    method ExpectAddComment(articleId: ArticleId, userId: UserId, content: string) returns (self: CommentServiceMock)
      modifies this
      ensures self == this
      ensures expectedCalls == old(expectedCalls) + [CommentCall(articleId, userId, content)]
      ensures actualCalls == old(actualCalls) && verified == old(verified)
    {
      expectedCalls := expectedCalls + [CommentCall(articleId, userId, content)];
      self := this;
    }

    /**
     * Sets the flag before any check, then compares the counts, then scans the positions and
     * stops at the first mismatch. Neither list changes.
     */
    method Verify() returns (r: Verification)
      modifies this`verified
      ensures verified
      ensures r == Verdict(expectedCalls, actualCalls)
    {
      verified := true;
      if |actualCalls| != |expectedCalls| {
        return CountMismatch(|expectedCalls|, |actualCalls|);
      }
      for i := 0 to |expectedCalls|
        invariant forall j :: 0 <= j < i ==> Matches(expectedCalls[j], actualCalls[j])
      {
        var expected := expectedCalls[i];
        var actual := actualCalls[i];
        if !Matches(expected, actual) {
          return CallMismatch(i, expected, actual);
        }
      }
      r := Verified;
    }

    /** Whether `Verify` has been called, whatever it concluded. */
    function WasVerified(): (r: bool)
      reads this
      ensures r == verified
    {
      verified
    }
  }
}
