/** The logger the services accept as an optional collaborator. */
module DummyLoggers {

  /**
   * The dummy: accepts every message and does nothing observable with it. The ghost
   * `messages` records the calls so that callers can state when they log.
   */
  class DummyLogger {
    ghost var messages: seq<string>

    constructor ()
      ensures messages == []
    {
      messages := [];
    }

    method Log(message: string)
      modifies this
      ensures messages == old(messages) + [message]
    {
      messages := messages + [message];
    }
  }
}
