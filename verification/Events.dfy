/** The records the kernel writes to its event log, and the messages it routes.
    Strings are byte strings: one char stands for one byte, so |s| is Go's len(s). */
module Events {

  datatype Option<+T> = None | Some(value: T)

  datatype Result<+T, +E> = Ok(value: T) | Err(error: E)

  datatype Message = Message(id: string, from: string, to: string, content: string, timestamp: int)

  /** The data of an event; the constructor plays the part of the "type" field. */
  datatype Payload =
    | AgentRegistered(address: string, operatorId: string, hasWebhook: bool)
    | MessageSent(id: string, from: string, to: string, content: string, length: int)
    | MessageDelivered(id: string, to: string, how: string)
    | StateWritten(key: string, value: string, length: int, writtenBy: string)
    | StateDeleted(key: string, deletedBy: string)
    | StateRead(key: string, readBy: string, found: bool)
    | RegistryRead(readBy: string)
    | OperatorCreated(operatorId: string, contactHash: string, acceptedTerms: bool)

  datatype Event = Event(sequence: int, timestamp: int, agent: string, data: Payload)

  /** The message that replaying a message_sent event hands to the router: its time is the log's. */
  function MessageOf(e: Event): Message
    requires e.data.MessageSent?
  {
    Message(e.data.id, e.data.from, e.data.to, e.data.content, e.timestamp)
  }

  /** The event is the record of this message: same id, ends, content and time. */
  predicate Records(e: Event, m: Message) {
    && e.data.MessageSent?
    && e.data.id == m.id && e.data.from == m.from && e.data.to == m.to && e.data.content == m.content
    && e.timestamp == m.timestamp
  }

  predicate RecordedIn(log: seq<Event>, m: Message) {
    exists e <- log :: Records(e, m)
  }

  /** Sequence numbers strictly increase along the list. */
  predicate Ascending(es: seq<Event>) {
    forall i, j :: 0 <= i < j < |es| ==> es[i].sequence < es[j].sequence
  }

  function Last(es: seq<Event>): Event
    requires es != []
  {
    es[|es| - 1]
  }

  function Front(es: seq<Event>): seq<Event>
    requires es != []
  {
    es[..|es| - 1]
  }

  lemma Assoc<T>(x: seq<T>, y: seq<T>, z: seq<T>)
    ensures (x + y) + z == x + (y + z)
  {
  }

  /** The page size of a listing: 100 unless given, at most 1000. */
  function PageSize(limit: int): (n: nat)
    ensures n > 0 && (1 <= limit <= 1000 ==> n == limit)
    ensures (limit <= 0 ==> n == 100) && (limit > 1000 ==> n == 1000)
  {
    if limit <= 0 then 100 else if limit > 1000 then 1000 else limit
  }
}
