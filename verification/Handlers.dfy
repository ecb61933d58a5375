/** What a message handler leaves behind, and the end of every delivery. */
module Handlers {
  import opened Wrappers
  import opened EventStore

  /** How a handler ends: normally, by a domain exception, or by any other exception. */
  datatype Fault = NoFault | DomainFault(error: string, event: Option<Event>) | OtherFault(error: string, message: string)

  /** What a handler leaves on the event bus and as the reply when it returns or throws. */
  datatype HandlerRun = HandlerRun(
    published: seq<Event>,
    commands: seq<string>,
    sagaResult: Option<string>,
    reply: Option<string>,
    fault: Fault)

  /** The consumer a message came from; `committed` are the messages whose offsets were committed. */
  class InternalConsumer {
    var committed: seq<string>

    constructor ()
      ensures committed == []
    {
      committed := [];
    }

    method CommitOffset(messageId: string)
      modifies this
      ensures committed == old(committed) + [messageId]
    {
      committed := committed + [messageId];
    }
  }
}
