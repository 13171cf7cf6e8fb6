/** UserService's scenarios against the stub repository, the spy and the dummy logger. */
module UserServiceScenarios {
  import opened Wrappers
  import opened UserIds
  import opened Users
  import opened UserRepositoryStubs
  import opened NotificationServiceSpies
  import opened DummyLoggers
  import opened UserServices

  /**
   * The update succeeds: the returned user has the new email and the same name and identifier,
   * it was saved once, and nothing was logged.
   */
  method UpdateEmailSucceeds(name: string, email: string, newEmail: string, generatedId: UserId, now: nat)
    returns (existing: User, r: Result<User, UserServiceError>, repository: UserRepositoryStub, logger: DummyLogger)
    requires newEmail != ""
    ensures r.Success? && r.value.email == newEmail
    ensures r.value.name == existing.name && r.value.id == existing.id
    ensures repository.savedUsers == [existing] && logger.messages == []
  {
    existing := new User.Create(name, email, None, generatedId, now);
    repository := new UserRepositoryStub(existing);
    logger := new DummyLogger();
    var service := new UserService(repository, None, Some(logger));
    r := service.UpdateUserEmail(existing.id.ToString(), newEmail, now);
  }

  /** With a spy as notifier, exactly one notice naming the old and the new email is sent. */
  method UpdateEmailNotifiesSpy(name: string, email: string, newEmail: string, generatedId: UserId, now: nat)
    returns (notified: bool, count: nat)
    requires newEmail != ""
    ensures notified && count == 1
  {
    var existing := new User.Create(name, email, None, generatedId, now);
    var repository := new UserRepositoryStub(existing);
    var spy := new NotificationServiceSpy();
    var logger := new DummyLogger();
    var service := new UserService(repository, Some(spy), Some(logger));
    var r := service.UpdateUserEmail(existing.id.ToString(), newEmail, now);
    notified := spy.WasNotifiedOfUserEmailChange(generatedId.ToString(), "Email changed from " + email + " to " + newEmail);
    count := spy.TotalNotificationsSent();
  }

  /** A spy that was not handed to the service hears nothing. */
  method UpdateEmailWithoutNotifier(name: string, email: string, newEmail: string, generatedId: UserId, now: nat)
    returns (count: nat)
    ensures count == 0
  {
    var existing := new User.Create(name, email, None, generatedId, now);
    var repository := new UserRepositoryStub(existing);
    var spy := new NotificationServiceSpy();
    var logger := new DummyLogger();
    var service := new UserService(repository, None, Some(logger));
    var r := service.UpdateUserEmail(existing.id.ToString(), newEmail, now);
    count := spy.TotalNotificationsSent();
  }

  /** Setting the email it already has changes nothing yet still sends the "changed" notice. */
  method SameEmailStillNotifies(name: string, email: string, generatedId: UserId, now: nat)
    returns (r: Result<User, UserServiceError>, notified: bool)
    requires email != ""
    ensures r.Success? && r.value.email == email
    ensures notified
  {
    var existing := new User.Create(name, email, None, generatedId, now);
    var repository := new UserRepositoryStub(existing);
    var spy := new NotificationServiceSpy();
    var service := new UserService(repository, Some(spy), None);
    r := service.UpdateUserEmail(existing.id.ToString(), email, now);
    notified := spy.WasNotifiedOfUserEmailChange(generatedId.ToString(), "Email changed from " + email + " to " + email);
  }

  /** Listing users through the stub returns the one configured user and logs the count once. */
  method GetAllUsersReturnsStubbedUser(name: string, email: string, generatedId: UserId, now: nat)
    returns (existing: User, users: seq<User>, logger: DummyLogger)
    ensures users == [existing]
    ensures logger.messages == ["Retrieved 1 users from repository"]
  {
    existing := new User.Create(name, email, None, generatedId, now);
    var repository := new UserRepositoryStub(existing);
    logger := new DummyLogger();
    var service := new UserService(repository, None, Some(logger));
    users := service.GetAllUsers();
    assert UserCountMessage(|users|) == "Retrieved 1 users from repository" by {
      assert |users| == 1 && NatToString(1) == "1";
    }
  }

  /** The stub hands out one shared object: an email changed through `findById` is seen through `findAll`. */
  method StubSharesItsUser(name: string, email: string, newEmail: string, generatedId: UserId, now: nat)
    returns (seen: string)
    requires newEmail != ""
    ensures seen == newEmail
  {
    var existing := new User.Create(name, email, None, generatedId, now);
    var repository := new UserRepositoryStub(existing);
    var found := repository.FindById(generatedId);
    var changed := found.value.ChangeEmail(newEmail);
    seen := repository.FindAll()[0].email;
  }
}
