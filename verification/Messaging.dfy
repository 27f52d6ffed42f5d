/**
 Messages and conversations, as the communication service and its in-memory stores keep them
 (app/services/communication/service.py, persistence.py, enums.py). Each call is one atomic
 step; a gateway fails only with its own error.
 */
module Messaging {
  import opened Shared

  datatype Status = Received | Queued | Sending | Sent | Delivered | Read | Failed

  function Allowed(source: Status): set<Status> {
    match source
    case Queued => {Sending, Failed}
    case Sending => {Sent, Failed}
    case Sent => {Delivered, Read, Failed}
    case Delivered => {Read}
    case Read => {}
    case Failed => {Queued}
    case Received => {}
  }

  predicate CanTransition(source: Status, target: Status) {
    source == target || target in Allowed(source)
  }

  /** An empty provider id is none. */
  datatype Message = Message(id: nat, conversation: nat, inbound: bool, status: Status,
                             providerId: string, attempts: nat, hasError: bool)

  datatype Conversation = Conversation(id: nat, channel: Channel, identity: string, count: nat, threadRef: string)

  type Address = (Channel, string)

  /** The stores' dictionaries; trail holds, per message, every status it was stored with. */
  datatype State = State(
    messages: map<nat, Message>,
    byProvider: map<string, nat>,
    conversations: map<nat, Conversation>,
    openBy: map<Address, nat>,
    next: nat,
    trail: map<nat, seq<Status>>)

  const EMPTY_STATE := State(map[], map[], map[], map[], 0, map[])

  function TrailOf(s: State, id: nat): seq<Status> {
    if id in s.trail then s.trail[id] else []
  }

  /** create and save of the message store. */
  function StoreMessage(s: State, m: Message): State {
    s.(messages := s.messages[m.id := m],
       byProvider := if m.providerId == "" then s.byProvider else s.byProvider[m.providerId := m.id],
       trail := s.trail[m.id := TrailOf(s, m.id) + [m.status]])
  }

  /** save of the conversation store; conversations here stay open. */
  function StoreConversation(s: State, c: Conversation): State {
    s.(conversations := s.conversations[c.id := c], openBy := s.openBy[(c.channel, c.identity) := c.id])
  }

  function FindOpen(s: State, address: Address): Option<Conversation> {
    if address in s.openBy && s.openBy[address] in s.conversations then Some(s.conversations[s.openBy[address]])
    else None
  }

  function FindByProvider(s: State, providerId: string): Option<Message> {
    if providerId in s.byProvider && s.byProvider[providerId] in s.messages
    then Some(s.messages[s.byProvider[providerId]]) else None
  }

  /** The open conversation of an address, opened if need be. */
  function Resolve(s: State, address: Address): State {
    if FindOpen(s, address).Some? then s
    else StoreConversation(s.(next := s.next + 1), Opened(s, address))
  }

  function Opened(s: State, address: Address): Conversation {
    Conversation(s.next, address.0, address.1, 0, "")
  }

  function Resolved(s: State, address: Address): Conversation {
    var open := FindOpen(s, address);
    if open.Some? then open.value else Opened(s, address)
  }

  /** Store a new message and count it in its conversation. */
  function AddMessage(s: State, c: Conversation, inbound: bool, status: Status, providerId: string): State {
    var m := Message(s.next, c.id, inbound, status, providerId, 0, false);
    StoreConversation(StoreMessage(s.(next := s.next + 1), m), c.(count := c.count + 1))
  }

  function Ingest(s: State, address: Address, providerId: string): State {
    if providerId != "" && FindByProvider(s, providerId).Some? then s
    else AddMessage(Resolve(s, address), Resolved(s, address), true, Received, providerId)
  }

  // ----- sending -----

  /** One gateway call: it fails, or is accepted under a provider id that may be missing. */
  datatype Reply = Refused | Accepted(providerId: string)

  function Failing(m: Message): Message {
    m.(attempts := m.attempts + 1, hasError := true)
  }

  function Succeeding(m: Message, providerId: string): Message {
    m.(attempts := m.attempts + 1, hasError := false, providerId := providerId, status := Sent)
  }

  /** Calls number attempt, attempt + 1, ... of at most n, saving the message after each. */
  function Attempts(s: State, m: Message, c: Conversation, attempt: nat, n: nat, replies: nat -> Reply): State
    decreases n - attempt
  {
    if attempt >= n then StoreMessage(s, m.(status := Failed))
    else match replies(attempt)
      case Refused => Attempts(StoreMessage(s, Failing(m)), Failing(m), c, attempt + 1, n, replies)
      case Accepted(providerId) => Threaded(StoreMessage(s, Succeeding(m, providerId)), c, providerId)
  }

  /** An accepted email becomes the conversation's new thread reference. */
  function Threaded(s: State, c: Conversation, providerId: string): State {
    if c.channel.Email? && providerId != "" then StoreConversation(s, c.(threadRef := providerId)) else s
  }

  function NewSending(s: State, c: Conversation): Message {
    Message(s.next, c.id, false, Sending, "", 0, false)
  }

  /** What send does once the conversation is open and the text is there. */
  function Dispatched(s: State, c: Conversation, replies: nat -> Reply, n: nat): State {
    Attempts(StoreMessage(AddMessage(s, c, false, Queued, ""), NewSending(s, c)), NewSending(s, c),
             c.(count := c.count + 1), 0, n, replies)
  }

  /** rendered is false when the template cannot be rendered; the conversation is open by then. */
  function Send(s: State, address: Address, rendered: bool, replies: nat -> Reply, maxAttempts: int): State {
    if !rendered then Resolve(s, address)
    else Dispatched(Resolve(s, address), Resolved(s, address), replies, Max(1, maxAttempts))
  }

  // ----- delivery callbacks -----

  datatype Target = ById(id: nat) | ByProvider(providerId: string)

  function Find(s: State, target: Target): Option<Message> {
    match target
    case ById(id) => if id in s.messages then Some(s.messages[id]) else None
    case ByProvider(providerId) => FindByProvider(s, providerId)
  }

  function WithDelivery(m: Message, status: Status, error: bool): Message {
    m.(status := status, hasError := if status.Failed? then error else m.hasError)
  }

  function Deliver(s: State, target: Target, status: Status, error: bool): State {
    var m := Find(s, target);
    if m.None? || !CanTransition(m.value.status, status) then s
    else StoreMessage(s, WithDelivery(m.value, status, error))
  }
}
