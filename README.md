# Test doubles for an article/user domain, in Dafny

This project models a small blogging domain and the test doubles that isolate its services. The domain has
articles and users with their identifiers. There are two application services, `ArticlePublisher` and
`UserService`, and four doubles: a fake article repository, a stub user repository, a spy notification
service and a mock comment service.

- **Identifiers** (`ArticleIds`, `UserIds`) are non-empty string tokens compared by value. The
  subset types `ArticleId` and `UserId` carry the constructor's non-empty check, so every identifier
  the model can hold passed it.
- **Entities** (`Articles.Article`, `Users.User`) are classes. Their readonly fields are `const` and
  their validate-then-mutate setters are `modifies` methods that return an `Outcome` in place of throwing.
- **The mock** (`CommentServiceMocks`) records expected and actual `addComment` calls. `Verify` sets its
  flag first, then checks the counts, then scans position by position and stops at the first mismatch.
  It is proved against the reference function `Verdict`, whose contract states the meaning of each outcome:
  - it passes exactly when the two lists are equal;
  - it reports a count mismatch exactly when the lengths differ;
  - otherwise it reports the least index at which the lists differ.
- **The spy** (`NotificationServiceSpies`) appends one record per notification. Its existential queries
  are computed by a recursive `some` (`AnyCall`) and specified by existential quantifiers.
- **The fake** (`ArticleRepositoryFakes`) models the JavaScript `Map` in two fields. `articles: map` holds
  the content. `order: seq` holds the iteration order: the present keys in the order in which they were last
  added as new keys (a deleted key that is set again goes to the end).
- **The stub** (`UserRepositoryStubs`) hands out its one configured user for every query. Its `save`
  stores nothing; a ghost `savedUsers` list records the users handed to it.
- **The dummy logger** (`DummyLoggers`) does nothing; a ghost `messages` list records the lines handed to it.
- **The services** keep a ghost `interactions` trace. Each collaborator call is appended to it in program
  order. This is how the contracts state "save, then notify, then log". What each collaborator received
  ("saved once", "logged once, only if configured", "never called") is also stated on the collaborator's
  own record: the spy's log, the fake's store, the stub's `savedUsers` and the logger's `messages`.

Abstractions:
- The wall clock is an injected natural number `now`.
- The uuid generator is an injected, already valid identifier `generatedId`.
- `async`/`await` calls are plain sequential method calls.
- A thrown error is a `Failure`/`Fail` value carrying structured data.

Behaviour of the code that the model keeps, where the names or interfaces suggest otherwise:
- `Article.create` and `User.create` do not validate their fields (src/article/Article.ts:27-41,
  src/user/User.ts:21-28). So `publish` cannot fail on an empty title or content, and a new article's title
  may be empty.
- The `NotificationService` interface declares `notifyArticlePublished` and `notifyCommentAdded`
  (src/services/NotificationService.ts:3-14). But `UserService` calls `notifyUserEmailChanged`, and the spy
  implements `notifyUserEmailChanged` and `notifyUserRegistered` rather than `notifyCommentAdded`. The
  model's notifier has the three methods the spy implements.
- `verify` sets the `verified` flag before the checks (test/doubles/mock/CommentServiceMock.ts:53). So the
  flag is true after a failing verification too.

## Model

| member | source | states |
|---|---|---|
| `ArticleIds.FromString` | src/article/ArticleId.ts:6-25 | construction succeeds exactly for a non-empty token, fails with the empty-id error otherwise, and the identifier prints as the given string |
| `ArticleIds.Create` | src/article/ArticleId.ts:16-18 | a generated identifier is the one `fromString` would build from the generated token |
| `ArticleIds.ArticleIdToken.ToString` | src/article/ArticleId.ts:38-40 | the plain string the identifier wraps; with `FromString` it round-trips (see `ToStringRoundTrip`) |
| `ArticleIds.ArticleIdToken.Equals` | src/article/ArticleId.ts:30-33 | equal exactly when the other identifier is present and prints the same, i.e. is the same value; an absent one is never equal |
| `ArticleIds.ToStringRoundTrip` | src/article/ArticleId.ts:23-25 | reading back an identifier's string gives the same identifier |
| `ArticleIds.EqualsIsEquivalence` | src/article/ArticleId.ts:30-33 | `equals` is reflexive, symmetric and transitive, and false for an absent identifier |
| `UserIds.FromString` | src/user/UserId.ts:6-25 | construction succeeds exactly for a non-empty token, fails with the empty-id error otherwise, and the identifier prints as the given string |
| `UserIds.Create` | src/user/UserId.ts:16-18 | a generated identifier is the one `fromString` would build from the generated token |
| `UserIds.UserIdToken.ToString` | src/user/UserId.ts:38-40 | the plain string the identifier wraps; with `FromString` it round-trips (see `ToStringRoundTrip`) |
| `UserIds.UserIdToken.Equals` | src/user/UserId.ts:30-33 | equal exactly when the other identifier is present and is the same value; an absent one is never equal |
| `UserIds.ToStringRoundTrip` | src/user/UserId.ts:23-25 | reading back an identifier's string gives the same identifier |
| `UserIds.EqualsIsEquivalence` | src/user/UserId.ts:30-33 | `equals` is reflexive, symmetric and transitive, and false for an absent identifier |
| `Articles.Article.Create` | src/article/Article.ts:12-41 | the supplied id if any, else the generated one; author, title and content exactly as given, unvalidated; `updatedAt == createdAt == now` |
| `Articles.Article.ChangeTitle` | src/article/Article.ts:76-82 | an empty title fails and changes nothing; otherwise sets the title, sets `updatedAt` to the clock, keeps the content; keeps `updatedAt >= createdAt` when the clock has not gone back |
| `Articles.Article.ChangeContent` | src/article/Article.ts:87-93 | an empty content fails and changes nothing; otherwise sets the content, sets `updatedAt` to the clock, keeps the title; keeps `updatedAt >= createdAt` when the clock has not gone back |
| `Articles.Article.Touch` | src/article/Article.ts:95-97 | `updatedAt` becomes the current clock reading and nothing else changes |
| `Users.User.Create` | src/user/User.ts:9-28 | the supplied id if any, else the generated one; name and email exactly as given, unvalidated |
| `Users.User.ChangeEmail` | src/user/User.ts:49-56 | an empty email fails and keeps the email; the current email is a no-op; otherwise the email becomes the new one; only `email` can change |
| `CommentServiceMocks.FirstMismatch` | test/doubles/mock/CommentServiceMock.ts:61-76 | the least position from `from` on where the calls do not match, or none exactly when all of them match |
| `CommentServiceMocks.Verdict` | test/doubles/mock/CommentServiceMock.ts:52-77 | passes iff the lengths are equal and every position matches; count error iff the lengths differ, carrying both counts; otherwise the least mismatching index with both records, all earlier positions matching |
| `CommentServiceMocks.MatchesIsEquality` | test/doubles/mock/CommentServiceMock.ts:65-69 | a call meets an expectation (two value-equal ids, identical content) exactly when the records are equal |
| `CommentServiceMocks.VerifiedIffSameCalls` | test/doubles/mock/CommentServiceMock.ts:52-77 | verification passes exactly when the actual call list equals the expected call list |
| `CommentServiceMocks.CommentServiceMock.constructor` | test/doubles/mock/CommentServiceMock.ts:11-23 | both call lists empty and not verified |
| `CommentServiceMocks.CommentServiceMock.AddComment` | test/doubles/mock/CommentServiceMock.ts:25-35 | appends exactly the one actual call, never fails, leaves the expectations and the flag alone |
| `CommentServiceMocks.CommentServiceMock.ExpectAddComment` | test/doubles/mock/CommentServiceMock.ts:38-49 | appends exactly the one expectation, leaves the actual calls and the flag alone, returns the same mock |
| `CommentServiceMocks.CommentServiceMock.Verify` | test/doubles/mock/CommentServiceMock.ts:52-81 | afterwards the mock is marked verified whatever the verdict, neither list changes, and the verdict is `Verdict` of the two lists |
| `CommentServiceMocks.CommentServiceMock.WasVerified` | test/doubles/mock/CommentServiceMock.ts:79-81 | reports the flag: false on a new mock, true after any `Verify`, passing or failing |
| `CommentServiceScenarios.MatchingCallVerifies` | test/scenarios/CommentService.test.ts:7-22 | one expectation and an identical call: verification passes and `wasVerified` holds |
| `CommentServiceScenarios.DifferentContentFails` | test/scenarios/CommentService.test.ts:24-39 | differing content: verification fails at the first call, reporting both records |
| `CommentServiceScenarios.MissingCallFails` | test/scenarios/CommentService.test.ts:41-56 | two expectations and one call: the count error with counts 2 and 1 |
| `CommentServiceScenarios.SwappedCallsFail` | test/doubles/mock/CommentServiceMock.ts:61-75 | two distinct expectations met in swapped order fail at the first position |
| `NotificationServiceSpies.AnyCall` | test/doubles/spy/NotificationServiceSpy.ts:52-57 | `some` over the log holds exactly when some record satisfies the test |
| `NotificationServiceSpies.AnyCallAppend` | test/doubles/spy/NotificationServiceSpy.ts:35-41 | after appending a record, a query holds exactly when it held before or holds of the new record |
| `NotificationServiceSpies.PublicationQueryIgnoresArticleId` | test/doubles/spy/NotificationServiceSpy.ts:51-58 | the publication query on a publication record depends only on its author and title, never on its article id |
| `NotificationServiceSpies.NotificationServiceSpy.constructor` | test/doubles/spy/NotificationServiceSpy.ts:10-14 | a new spy has an empty log |
| `NotificationServiceSpies.NotificationServiceSpy.NotifyArticlePublished` | test/doubles/spy/NotificationServiceSpy.ts:16-22 | appends exactly one record with the method name, the arguments in order and the clock reading; the count grows by one and that publication is now found |
| `NotificationServiceSpies.NotificationServiceSpy.NotifyUserEmailChanged` | test/doubles/spy/NotificationServiceSpy.ts:24-29 | appends exactly one record with the method name, both arguments and the clock reading; the change is now found |
| `NotificationServiceSpies.NotificationServiceSpy.NotifyUserRegistered` | test/doubles/spy/NotificationServiceSpy.ts:31-33 | appends exactly one record with the method name, both arguments and the clock reading; the registration is now found |
| `NotificationServiceSpies.NotificationServiceSpy.RecordCall` | test/doubles/spy/NotificationServiceSpy.ts:35-41 | the log becomes the old log plus one record at the end, so earlier records and their order are kept |
| `NotificationServiceSpies.NotificationServiceSpy.Clear` | test/doubles/spy/NotificationServiceSpy.ts:46-48 | the log is empty, the count is 0, there is no last time, and every query is false |
| `NotificationServiceSpies.NotificationServiceSpy.WasNotifiedOfArticlePublication` | test/doubles/spy/NotificationServiceSpy.ts:51-58 | holds iff some record is a publication with argument 0 the author and argument 2 the title; argument 1 is ignored |
| `NotificationServiceSpies.NotificationServiceSpy.WasNotifiedOfUserEmailChange` | test/doubles/spy/NotificationServiceSpy.ts:60-67 | holds iff some record is an email change with arguments 0 and 1 as given |
| `NotificationServiceSpies.NotificationServiceSpy.WasNotifiedOfUserRegistration` | test/doubles/spy/NotificationServiceSpy.ts:69-76 | holds iff some record is a registration with arguments 0 and 1 as given |
| `NotificationServiceSpies.NotificationServiceSpy.TotalNotificationsSent` | test/doubles/spy/NotificationServiceSpy.ts:78-80 | the number of records in the log, zero exactly when there is no last notification time; each notify raises it by one and `Clear` resets it |
| `NotificationServiceSpies.NotificationServiceSpy.LastNotificationTime` | test/doubles/spy/NotificationServiceSpy.ts:82-86 | absent exactly when the log is empty, otherwise the last record's timestamp |
| `NotificationSpyScenarios.TwoPublications` | test/doubles/spy/NotificationServiceSpy.ts:51-86 | after two publications, each sent (author, title) pair is found, a mixed pair is not, the count is 2 and the last time is the second call's |
| `NotificationSpyScenarios.ClearForgetsEverything` | test/doubles/spy/NotificationServiceSpy.ts:46-48 | a used spy, once cleared, finds nothing, counts 0 and has no last time |
| `ArticleRepositoryFakes.Without` | test/doubles/fake/ArticleRepositoryFake.ts:25-27 | removing a key from the iteration order keeps every other key, keeps keys distinct, and changes nothing for an absent key |
| `ArticleRepositoryFakes.DistinctCardinality` | test/doubles/fake/ArticleRepositoryFake.ts:29-31 | a key list without repeats is as long as its set of keys |
| `ArticleRepositoryFakes.ValuesAt` | test/doubles/fake/ArticleRepositoryFake.ts:29-31 | the values listed are those stored under the keys, one per key, in key order |
| `ArticleRepositoryFakes.ValuesAtListsEveryKey` | test/doubles/fake/ArticleRepositoryFake.ts:29-31 | the value of every listed key is among the listed values |
| `ArticleRepositoryFakes.ListingCoversStore` | test/doubles/fake/ArticleRepositoryFake.ts:29-31 | listing a repeat-free key order that covers the store gives one value per entry and every stored value |
| `ArticleRepositoryFakes.ListingHasDistinctIds` | test/doubles/fake/ArticleRepositoryFake.ts:21-31 | when each article is stored under its own id string, a listing over distinct keys has no id twice |
| `ArticleRepositoryFakes.SeededKeys` | test/doubles/fake/ArticleRepositoryFake.ts:15-19 | seeding stores exactly the ids of the initial articles |
| `ArticleRepositoryFakes.SeededLastWins` | test/doubles/fake/ArticleRepositoryFake.ts:15-19 | under each stored id, seeding keeps the last article in the list carrying it |
| `ArticleRepositoryFakes.ArticleRepositoryFake.constructor` | test/doubles/fake/ArticleRepositoryFake.ts:15-19 | the store is the seeding of the initial list, in a consistent state |
| `ArticleRepositoryFakes.ArticleRepositoryFake.Save` | test/doubles/fake/ArticleRepositoryFake.ts:21-23 | the article is stored under its id string, overwriting any earlier one; `findById` then returns it; every other id's answer is unchanged; a new key goes to the end of the iteration order |
| `ArticleRepositoryFakes.ArticleRepositoryFake.Delete` | test/doubles/fake/ArticleRepositoryFake.ts:25-27 | the id's entry is gone, so `findById` is null and `wasSaved` false; deleting an absent id is no error and changes nothing |
| `ArticleRepositoryFakes.ArticleRepositoryFake.FindAll` | test/doubles/fake/ArticleRepositoryFake.ts:29-31 | as many articles as keys, every one stored, every stored one listed, no id twice |
| `ArticleRepositoryFakes.ArticleRepositoryFake.FindById` | test/doubles/fake/ArticleRepositoryFake.ts:33-35 | present exactly when the id string is a key, and then the stored article |
| `ArticleRepositoryFakes.ArticleRepositoryFake.GetSavedArticleById` | test/doubles/fake/ArticleRepositoryFake.ts:37-39 | always agrees with `findById` |
| `ArticleRepositoryFakes.ArticleRepositoryFake.GetAllSaved` | test/doubles/fake/ArticleRepositoryFake.ts:42-44 | always agrees with `findAll` |
| `ArticleRepositoryFakes.ArticleRepositoryFake.WasSaved` | test/doubles/fake/ArticleRepositoryFake.ts:47-49 | holds exactly when `findById` finds something, i.e. the id string is a key |
| `ArticleRepositoryFakes.ArticleRepositoryFake.Reset` | test/doubles/fake/ArticleRepositoryFake.ts:52-54 | the store is empty: `findAll` is empty and no id was saved |
| `ArticleRepositoryFakes.EqualIdsShareEntry` | test/doubles/fake/ArticleRepositoryFake.ts:22-34 | value-equal ids get the same `findById` and `wasSaved` answers |
| `UserRepositoryStubs.UserRepositoryStub.constructor` | test/doubles/stub/UserRepositoryStub.ts:11 | the stub holds the given user and has been handed nothing to save |
| `UserRepositoryStubs.UserRepositoryStub.Save` | test/doubles/stub/UserRepositoryStub.ts:13-15 | stores nothing, so every query answers as before; the ghost record of saved users grows by exactly the given user |
| `UserRepositoryStubs.UserRepositoryStub.Delete` | test/doubles/stub/UserRepositoryStub.ts:17-19 | no observable effect |
| `UserRepositoryStubs.UserRepositoryStub.FindAll` | test/doubles/stub/UserRepositoryStub.ts:21-23 | the one-element list of the configured user |
| `UserRepositoryStubs.UserRepositoryStub.FindById` | test/doubles/stub/UserRepositoryStub.ts:25-27 | the configured user, never null |
| `UserRepositoryStubs.FindByIdIgnoresId` | test/doubles/stub/UserRepositoryStub.ts:5-27 | any two ids get the same non-null answer, and it is the same object `findAll` lists |
| `DummyLoggers.DummyLogger.constructor` | test/doubles/dummy/DummyLogger.ts:12-16 | a new logger has been handed no message |
| `DummyLoggers.DummyLogger.Log` | test/doubles/dummy/DummyLogger.ts:13 | does nothing observable; the ghost record of messages grows by exactly the given line |
| `ArticlePublishers.ArticlePublisher.constructor` | src/services/ArticlePublisher.ts:15-19 | holds the given repository and the optional logger and notifier; no calls made yet |
| `ArticlePublishers.ArticlePublisher.Publish` | src/services/ArticlePublisher.ts:25-54 | creates one new article with the given author, title and content and a fresh id, saves that article without touching other entries (a new key goes to the end of the iteration order), returns it; then one `notifyArticlePublished(authorId, id, title)` only if a notifier is configured (the spy's log grows by that record); then one log line only if a logger is (the logger's messages grow by exactly that line); in that order |
| `ArticlePublisherScenarios.PublishIntoEmptyFake` | test/scenarios/ArticlePublisher.test.ts:18-36 | publishing into an empty fake leaves exactly one saved article, found under the returned id and equal to the returned article; the logger received exactly the one publication line |
| `ArticlePublisherScenarios.PublishNotifiesSpy` | test/scenarios/ArticlePublisher.test.ts:38-63 | with a spy as notifier the publication is found and the count is 1 |
| `ArticlePublisherScenarios.PublishWithoutNotifier` | test/scenarios/ArticlePublisher.test.ts:65-89 | without a notifier the article is saved and a spy that was not handed over records nothing |
| `UserServices.UserService.constructor` | src/services/UserService.ts:12-16 | holds the given repository and the optional notifier and logger; no calls made yet |
| `UserServices.UserService.UpdateUserEmail` | src/services/UserService.ts:21-42 | an empty id fails before any repository call and changes nothing, saving nothing; with the stub the user is always found; an empty email then fails with nothing saved or sent; otherwise the found user gets the new email, is handed to the stub's `save` exactly once, is returned, and is notified once if a notifier exists; the logger's messages are unchanged |
| `UserServices.UserService.ChangeEmailOf` | src/services/UserService.ts:24-41 | for any lookup answer: absent fails with "not found" and no save or notification; an empty email fails with the email kept and no save or notification (the stub's saved users unchanged); otherwise email set, the user appended once to the stub's saved users, then one notice `"Email changed from <old> to <new>"` (even when they are the same) only if a notifier exists |
| `UserServices.UserService.GetAllUsers` | src/services/UserService.ts:47-55 | returns the repository's `findAll` list unchanged, then logs `"Retrieved <n> users from repository"` exactly once, only if a logger is configured |
| `UserServiceScenarios.UpdateEmailSucceeds` | test/scenarios/UserService.test.ts:16-35 | the returned user has the new email and the existing user's name and id; the stub was handed exactly that user; the logger was not used |
| `UserServiceScenarios.UpdateEmailNotifiesSpy` | test/scenarios/UserService.test.ts:37-61 | the spy finds the change notice for the user's id with the old and the new email, and counts 1 |
| `UserServiceScenarios.UpdateEmailWithoutNotifier` | test/scenarios/UserService.test.ts:63-77 | a spy that was not handed over counts 0 |
| `UserServiceScenarios.SameEmailStillNotifies` | src/services/UserService.ts:28-39 | setting the current email leaves it as it is, yet the "changed from e to e" notice is sent |
| `UserServiceScenarios.StubSharesItsUser` | test/doubles/stub/UserRepositoryStub.ts:11-27 | an email changed on the user `findById` returned is the email of the user `findAll` lists |
| `UserServiceScenarios.GetAllUsersReturnsStubbedUser` | test/scenarios/UserService.test.ts:81-95 | the listed users are exactly the one configured user, and the logger received exactly `"Retrieved 1 users from repository"` |

## Left out

- The interfaces (`ArticleRepository`, `UserRepository`, `NotificationService`, `CommentService`, `Logger`)
  are not separate types. The model has no interface types, so each service is stated against the double
  its scenarios inject:
  - `ArticlePublisher` takes the fake repository, an optional spy and an optional dummy logger.
  - `UserService` takes the stub repository, an optional spy and an optional dummy logger.
  - Other implementations of these interfaces are not covered.
- `ArticlePublishers.ArticlePublisher.Publish`: the fake's save never fails, so "a failing save stops the
  notification and the log" has no input that shows it. Only the order of the calls is stated.
- `UserServices.UserService.UpdateUserEmail`: the stub always finds its user, so the "not found" branch is
  stated on `ChangeEmailOf`, which takes an arbitrary lookup answer.
- `EmailNotificationService` and its `notifyCommentAdded` (src/services/NotificationService.ts:20-42) only
  write to the console. This is I/O and is not modelled.
- The uuid generator (src/utils/uuid.ts) uses `Math.random`. An identifier it produced is a parameter.
  `ArticleIds.Create` and `UserIds.Create` require a non-empty token, because the generator's template is
  36 characters long. Uniqueness of generated identifiers is not modelled.
- `new Date()` is replaced by a natural-number clock reading passed in. Dates as mutable objects, and real
  time, are not modelled.
- `DummyLogger` (test/doubles/dummy/DummyLogger.ts) is a no-op. Its optional `warn` and `error` are never
  called and are not modelled.
- The error message texts, including the mock's `JSON.stringify` output, are replaced by structured error
  values. The mock's message numbers the failing call as index + 1.
- The spy's doc comment says it delegates to a real implementation. The code never delegates, and neither
  does the model.
- Promises and `await` are modelled as sequential calls. There is no concurrency.
