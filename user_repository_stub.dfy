/** A stub UserRepository: it answers every query with one pre-configured user and ignores writes. */
module UserRepositoryStubs {
  import opened Wrappers
  import opened UserIds
  import opened Users

  class UserRepositoryStub {
    /** The one user every query hands out: the same object each time. */
    const user: User
    /** The users handed to `Save`, oldest first: a ghost record, not state the stub keeps. */
    ghost var savedUsers: seq<User>

    constructor (user: User)
      ensures this.user == user && savedUsers == []
    {
      this.user := user;
      savedUsers := [];
    }

    /**
     * No-op: nothing is stored (`user` is constant, so every later answer is what it was);
     * only the ghost record grows.
     */
    method Save(saved: User)
      modifies this
      ensures savedUsers == old(savedUsers) + [saved]
    {
      savedUsers := savedUsers + [saved];
    }

    /** No-op: nothing is removed. */
    method Delete(id: UserId)
      ensures unchanged(this)
    {
    }

    /** The configured user as a one-element list. */
    function FindAll(): (r: seq<User>)
      ensures r == [user]
    {
      [user]
    }

    /** The configured user, whatever identifier is asked for; never absent. */
    function FindById(id: UserId): (r: Option<User>)
      ensures r == Some(user)
    {
      Some(user)
    }
  }

  /**
   * There is no identity matching: any two identifiers get the same answer, it is never absent,
   * and it is the very object `FindAll` returns, so a change made through one is seen through the other.
   */
  lemma FindByIdIgnoresId(stub: UserRepositoryStub, a: UserId, b: UserId)
    ensures stub.FindById(a) == stub.FindById(b)
    ensures stub.FindById(a).Some?
    ensures stub.FindAll() == [stub.FindById(a).value]
  {
  }
}
