/** UserService: changes a user's email (lookup, mutate, save, optional notify) and lists users. */
module UserServices {
  import opened Wrappers
  import opened UserIds
  import opened Users
  import opened UserRepositoryStubs
  import opened NotificationServiceSpies
  import opened DummyLoggers

  /** Why `updateUserEmail` throws. */
  datatype UserServiceError =
    | InvalidUserId(idError: UserIdError)
    | UserNotFound(userId: string)
    | InvalidEmail(userError: UserError)

  /** One call the service makes on a collaborator, in the order it makes them. */
  datatype UserServiceStep =
    | LookedUpUser(id: UserId)
    | SavedUser(user: User)
    | NotifiedEmailChange(userId: string, message: string)
    | ListedUsers
    | LoggedUserCount(message: string)

  /** The text of the email-change notification. */
  function EmailChangeMessage(oldEmail: string, newEmail: string): string
  {
    "Email changed from " + oldEmail + " to " + newEmail
  }

  /** Decimal digits of a count, as a template literal renders it. */
  function NatToString(n: nat): string
  {
    var digit := ['0', '1', '2', '3', '4', '5', '6', '7', '8', '9'][n % 10];
    if n < 10 then [digit] else NatToString(n / 10) + [digit]
  }

  /** The line `getAllUsers` logs. */
  function UserCountMessage(count: nat): string
  {
    "Retrieved " + NatToString(count) + " users from repository"
  }

  class UserService {
    const userRepository: UserRepositoryStub
    const notificationService: Option<NotificationServiceSpy>
    const logger: Option<DummyLogger>
    /** Every collaborator call made so far, oldest first. */
    ghost var interactions: seq<UserServiceStep>

    constructor (userRepository: UserRepositoryStub, notificationService: Option<NotificationServiceSpy>,
                 logger: Option<DummyLogger>)
      ensures this.userRepository == userRepository && this.notificationService == notificationService
      ensures this.logger == logger && interactions == []
    {
      this.userRepository := userRepository;
      this.notificationService := notificationService;
      this.logger := logger;
      interactions := [];
    }

    /** The notifier's state, when there is a notifier. */
    ghost function NotifierFrame(): set<object>
    {
      if notificationService.Some? then {notificationService.value} else {}
    }

    /** The logger's state, when there is a logger. */
    ghost function LoggerFrame(): set<object>
    {
      if logger.Some? then {logger.value} else {}
    }

    /** Whether the notifier, if any, has the log it had before. */
    twostate predicate NotifierUnchanged()
      reads NotifierFrame()
    {
      notificationService.Some? ==> notificationService.value.calls == old(notificationService.value.calls)
    }

    /**
     * updateUserEmail: an empty identifier fails before the repository is asked; the stub then
     * always finds its user, so the remaining outcomes are the email change failing (nothing saved,
     * nothing sent) or succeeding (user saved, then one notification if a notifier is configured).
     * The logger is never used.
     */
    method UpdateUserEmail(userId: string, newEmail: string, now: nat) returns (r: Result<User, UserServiceError>)
      modifies this, userRepository, userRepository.user, NotifierFrame()
      ensures userId == "" ==>
        && r == Failure(InvalidUserId(EmptyUserId))
        && interactions == old(interactions) && userRepository.user.email == old(userRepository.user.email)
        && userRepository.savedUsers == old(userRepository.savedUsers) && NotifierUnchanged()
      ensures userId != "" ==> r.Failure? ==> r.error == InvalidEmail(EmptyEmail)
      ensures userId != "" ==> r.Success? ==> r.value == userRepository.user
      ensures userId != "" ==>
        ChangedEmail(Some(userRepository.user), userId, newEmail, now, old(userRepository.user.email),
                     old(interactions) + [LookedUpUser(UserIdToken(userId))], r)
      ensures logger.Some? ==> logger.value.messages == old(logger.value.messages)
    {
      var id := UserIds.FromString(userId);
      if id.Failure? {
        return Failure(InvalidUserId(id.error));
      }
      var found := userRepository.FindById(id.value);
      interactions := interactions + [LookedUpUser(id.value)];
      r := ChangeEmailOf(found, userId, newEmail, now);
    }

    /**
     * How the steps of updateUserEmail after the lookup leave things, given the lookup's answer
     * `found`, the found user's email before the call and the trace up to the lookup.
     */
    twostate predicate ChangedEmail(found: Option<User>, userId: string, newEmail: string, now: nat,
                                    oldEmail: string, traceAfterLookup: seq<UserServiceStep>,
                                    new r: Result<User, UserServiceError>)
      reads this, userRepository, if found.Some? then {found.value} else {}, NotifierFrame()
    {
      if found.None? then
        && r == Failure(UserNotFound(userId))
        && interactions == traceAfterLookup && NotifierUnchanged()
        && userRepository.savedUsers == old(userRepository.savedUsers)
      else if newEmail == "" then
        && r == Failure(InvalidEmail(EmptyEmail))
        && found.value.email == oldEmail
        && interactions == traceAfterLookup && NotifierUnchanged()
        && userRepository.savedUsers == old(userRepository.savedUsers)
      else
        var user := found.value;
        var message := EmailChangeMessage(oldEmail, newEmail);
        && r == Success(user)
        && user.email == newEmail
        && userRepository.savedUsers == old(userRepository.savedUsers) + [user]
        && interactions == traceAfterLookup + [SavedUser(user)]
             + (if notificationService.Some? then [NotifiedEmailChange(user.id.ToString(), message)] else [])
        && (notificationService.Some? ==>
              notificationService.value.calls
                == old(notificationService.value.calls)
                   + [RecordedCall(UserEmailChanged, [Text(user.id.ToString()), Text(message)], now)])
    }

    /**
     * The steps of updateUserEmail after the repository has answered `found`: not found fails,
     * otherwise the old email is captured, the email changed, the user saved and the notifier told.
     */
    method ChangeEmailOf(found: Option<User>, userId: string, newEmail: string, now: nat)
      returns (r: Result<User, UserServiceError>)
      modifies this, userRepository, if found.Some? then {found.value} else {}, NotifierFrame()
      ensures ChangedEmail(found, userId, newEmail, now,
                           if found.Some? then old(found.value.email) else "", old(interactions), r)
    {
      if found.None? {
        return Failure(UserNotFound(userId));
      }
      var user := found.value;
      var oldEmail := user.email;
      var changed := user.ChangeEmail(newEmail);
      if changed.Fail? {
        return Failure(InvalidEmail(changed.error));
      }

      userRepository.Save(user);
      interactions := interactions + [SavedUser(user)];

      if notificationService.Some? {
        var message := EmailChangeMessage(oldEmail, newEmail);
        notificationService.value.NotifyUserEmailChanged(user.id.ToString(), message, now);
        interactions := interactions + [NotifiedEmailChange(user.id.ToString(), message)];
      }
      r := Success(user);
    }

    /** getAllUsers: the repository's list, unchanged; its size is logged only if a logger is configured. */
    method GetAllUsers() returns (users: seq<User>)
      modifies this, LoggerFrame()
      ensures users == userRepository.FindAll()
      ensures logger.Some? ==> logger.value.messages == old(logger.value.messages) + [UserCountMessage(|users|)]
      ensures interactions == old(interactions) + [ListedUsers]
        + (if logger.Some? then [LoggedUserCount(UserCountMessage(|users|))] else [])
    {
      users := userRepository.FindAll();
      interactions := interactions + [ListedUsers];
      if logger.Some? {
        var message := UserCountMessage(|users|);
        logger.value.Log(message);
        interactions := interactions + [LoggedUserCount(message)];
      }
    }
  }
}
