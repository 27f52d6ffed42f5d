/** The communication service over its in-memory stores (app/services/communication/service.py). */
module MessagingService {
  import opened Shared
  import opened Messaging

  datatype Outcome = Done(message: Message) | NotRendered | NoSuchMessage | IllegalTransition

  class CommunicationService {
    var messages: map<nat, Message>
    var byProvider: map<string, nat>
    var conversations: map<nat, Conversation>
    var openBy: map<Address, nat>
    var next: nat
    ghost var trail: map<nat, seq<Status>>
    const maxAttempts: int

    ghost function View(): State
      reads this
    {
      State(messages, byProvider, conversations, openBy, next, trail)
    }

    constructor (maxAttempts: int)
      ensures this.maxAttempts == maxAttempts && View() == EMPTY_STATE
    {
      this.maxAttempts := maxAttempts;
      messages, byProvider, conversations, openBy, next, trail := map[], map[], map[], map[], 0, map[];
    }

    method SaveMessage(m: Message)
      modifies this
      ensures View() == StoreMessage(old(View()), m)
    {
      trail := trail[m.id := TrailOf(View(), m.id) + [m.status]];
      messages := messages[m.id := m];
      if m.providerId != "" {
        byProvider := byProvider[m.providerId := m.id];
      }
    }

    method SaveConversation(c: Conversation)
      modifies this
      ensures View() == StoreConversation(old(View()), c)
    {
      conversations := conversations[c.id := c];
      openBy := openBy[(c.channel, c.identity) := c.id];
    }

    method ResolveConversation(address: Address) returns (c: Conversation)
      modifies this
      ensures View() == Resolve(old(View()), address)
      ensures c == Resolved(old(View()), address)
    {
      if address in openBy && openBy[address] in conversations {
        return conversations[openBy[address]];
      }
      c := Conversation(next, address.0, address.1, 0, "");
      next := next + 1;
      SaveConversation(c);
    }

    method CreateMessage(c: Conversation, inbound: bool, status: Status, providerId: string)
        returns (m: Message, counted: Conversation)
      modifies this
      ensures View() == AddMessage(old(View()), c, inbound, status, providerId)
      ensures m == Message(old(next), c.id, inbound, status, providerId, 0, false)
      ensures counted == c.(count := c.count + 1)
    {
      m := Message(next, c.id, inbound, status, providerId, 0, false);
      next := next + 1;
      SaveMessage(m);
      counted := c.(count := c.count + 1);
      SaveConversation(counted);
    }

    method IngestInbound(address: Address, providerId: string) returns (m: Message)
      modifies this
      ensures View() == Ingest(old(View()), address, providerId)
      ensures m in messages.Values
      ensures providerId != "" ==> FindByProvider(View(), providerId) == Some(m)
    {
      if providerId != "" && providerId in byProvider && byProvider[providerId] in messages {
        m := messages[byProvider[providerId]];
        return;
      }
      var c := ResolveConversation(address);
      m, c := CreateMessage(c, true, Received, providerId);
      assert messages[m.id] == m;
    }

    method SendMessage(address: Address, rendered: bool, replies: nat -> Reply) returns (r: Outcome)
      modifies this
      ensures View() == Send(old(View()), address, rendered, replies, maxAttempts)
      ensures if rendered then r.Done? && r.message in messages.Values else r.NotRendered?
    {
      var c := ResolveConversation(address);
      if !rendered {
        return NotRendered;
      }
      var m: Message;
      m, c := CreateMessage(c, false, Queued, "");
      m := DispatchWithRetry(m, c, replies);
      return Done(m);
    }

    method DispatchWithRetry(message: Message, c: Conversation, replies: nat -> Reply) returns (m: Message)
      requires message.status.Queued?
      modifies this
      ensures var sending := message.(status := Sending);
              View() == Attempts(StoreMessage(old(View()), sending), sending, c, 0, Max(1, maxAttempts), replies)
      ensures m.id in messages && messages[m.id] == m
    {
      m := message.(status := Sending);
      SaveMessage(m);
      ghost var s0, m0 := View(), m;
      var attempts := Max(1, maxAttempts);
      for attempt := 0 to attempts
        invariant Attempts(View(), m, c, attempt, attempts, replies) == Attempts(s0, m0, c, 0, attempts, replies)
      {
        m := m.(attempts := m.attempts + 1);
        var reply := replies(attempt);
        if reply.Refused? {
          m := m.(hasError := true);
          SaveMessage(m);
          continue;
        }
        m := m.(providerId := reply.providerId, hasError := false, status := Sent);
        SaveMessage(m);
        if c.channel.Email? && reply.providerId != "" {
          SaveConversation(c.(threadRef := reply.providerId));
        }
        return;
      }
      m := m.(status := Failed);
      SaveMessage(m);
    }

    method UpdateDeliveryStatus(target: Target, status: Status, error: bool) returns (r: Outcome)
      modifies this
      ensures View() == Deliver(old(View()), target, status, error)
      ensures r.NoSuchMessage? <==> Find(old(View()), target).None?
      ensures r.Done? ==>
                var was := Find(old(View()), target).value;
                r.message == was.(status := status, hasError := if status.Failed? then error else was.hasError)
      ensures r.Done? ==> r.message.id in messages && messages[r.message.id] == r.message
      ensures r.IllegalTransition? <==>
                var found := Find(old(View()), target); found.Some? && !CanTransition(found.value.status, status)
    {
      var found: Option<Message>;
      match target {
        case ById(id) => found := if id in messages then Some(messages[id]) else None;
        case ByProvider(p) =>
          found := if p in byProvider && byProvider[p] in messages then Some(messages[byProvider[p]]) else None;
      }
      if found.None? {
        return NoSuchMessage;
      }
      var m := found.value;
      if !CanTransition(m.status, status) {
        return IllegalTransition;
      }
      m := m.(status := status);
      if status.Failed? {
        m := m.(hasError := error);
      }
      SaveMessage(m);
      return Done(m);
    }
  }
}
