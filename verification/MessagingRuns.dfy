/** What every run of the communication service keeps. */
module MessagingRuns {
  import opened Shared
  import opened Messaging

  // ----- the invariant -----

  /** A history of stored statuses: it starts where messages start and follows the transition table. */
  predicate IsPath(trail: seq<Status>, inbound: bool) {
    && trail != [] && trail[0] == (if inbound then Received else Queued)
    && forall i :: 0 < i < |trail| ==> CanTransition(trail[i - 1], trail[i])
  }

  ghost predicate MessageInv(s: State, id: nat)
    requires id in s.messages
  {
    var m := s.messages[id];
    && m.id == id < s.next && m.conversation in s.conversations
    && (m.providerId != "" ==> m.providerId in s.byProvider)
    && IsPath(TrailOf(s, id), m.inbound) && TrailOf(s, id)[|TrailOf(s, id)| - 1] == m.status
  }

  function MessagesIn(messages: map<nat, Message>, c: nat): set<nat> {
    set id | id in messages && messages[id].conversation == c
  }

  function AddressOf(c: Conversation): Address {
    (c.channel, c.identity)
  }

  /** message_count is the number of stored messages, and the conversation is its address's open one. */
  ghost predicate ConversationInv(s: State, id: nat)
    requires id in s.conversations
  {
    var c := s.conversations[id];
    && c.id == id < s.next && c.count == |MessagesIn(s.messages, id)|
    && AddressOf(c) in s.openBy && s.openBy[AddressOf(c)] == id
  }

  ghost predicate OpenInv(s: State, a: Address)
    requires a in s.openBy
  {
    s.openBy[a] in s.conversations && AddressOf(s.conversations[s.openBy[a]]) == a
  }

  /** No inbound provider id was ever stored twice. */
  ghost predicate InboundUnique(s: State) {
    forall a, b :: a in s.messages && b in s.messages && SameInbound(s.messages[a], s.messages[b]) ==> a == b
  }

  predicate SameInbound(a: Message, b: Message) {
    a.inbound && b.inbound && a.providerId != "" && a.providerId == b.providerId
  }

  ghost predicate MessagesOk(s: State) {
    forall id :: id in s.messages ==> MessageInv(s, id)
  }

  ghost predicate ConversationsOk(s: State) {
    forall id :: id in s.conversations ==> ConversationInv(s, id)
  }

  ghost predicate OpenOk(s: State) {
    forall a :: a in s.openBy ==> OpenInv(s, a)
  }

  ghost predicate ProvidersOk(s: State) {
    forall p :: p in s.byProvider ==> s.byProvider[p] in s.messages
  }

  ghost predicate Inv(s: State) {
    && MessagesOk(s) && ConversationsOk(s) && OpenOk(s) && ProvidersOk(s)
    && InboundUnique(s)
    && s.trail.Keys == s.messages.Keys
  }

  /** Conversations may be added or rewritten without touching any message. */
  lemma MessagesFrame(s: State, s': State)
    requires MessagesOk(s) && s'.messages == s.messages && s'.trail == s.trail && s'.byProvider == s.byProvider
    requires s.next <= s'.next && s.conversations.Keys <= s'.conversations.Keys
    ensures MessagesOk(s')
  {
    forall id | id in s'.messages ensures MessageInv(s', id) {
      assert MessageInv(s, id);
    }
  }

  // ----- each store operation keeps it -----

  ghost predicate Updates(s: State, m: Message) {
    && m.id in s.messages
    && var was := s.messages[m.id];
       && m.conversation == was.conversation && m.inbound == was.inbound
       && CanTransition(was.status, m.status) && (m.inbound ==> m.providerId == was.providerId)
  }

  lemma UpdateKeepsMessages(s: State, m: Message, s': State, id: nat)
    requires Updates(s, m) && s' == StoreMessage(s, m)
    requires id in s.messages && MessageInv(s, id)
    ensures MessageInv(s', id)
  {
    if id == m.id {
    }
  }

  lemma UpdateKeepsConversations(s: State, m: Message, s': State, id: nat)
    requires Updates(s, m) && s' == StoreMessage(s, m)
    requires id in s.conversations && ConversationInv(s, id)
    ensures ConversationInv(s', id)
  {
    assert MessagesIn(s'.messages, id) == MessagesIn(s.messages, id);
  }

  lemma UpdateKeepsUnique(s: State, m: Message)
    requires Inv(s) && Updates(s, m)
    ensures InboundUnique(StoreMessage(s, m))
  {
  }

  lemma UpdateKeepsInv(s: State, m: Message)
    requires Inv(s) && Updates(s, m)
    ensures Inv(StoreMessage(s, m))
  {
    var s' := StoreMessage(s, m);
    forall id | id in s'.messages ensures MessageInv(s', id) {
      UpdateKeepsMessages(s, m, s', id);
    }
    forall id | id in s'.conversations ensures ConversationInv(s', id) {
      UpdateKeepsConversations(s, m, s', id);
    }
    UpdateKeepsUnique(s, m);
    forall a | a in s'.openBy ensures OpenInv(s', a) {
      assert OpenInv(s, a);
    }
  }

  /** c is stored as it is. */
  ghost predicate Stored(s: State, c: Conversation) {
    c.id in s.conversations && s.conversations[c.id] == c
  }

  lemma ThreadedKeepsInv(s: State, c: Conversation, providerId: string, s': State)
    requires Inv(s) && Stored(s, c) && s' == Threaded(s, c, providerId)
    ensures Inv(s')
  {
    if c.channel.Email? && providerId != "" {
      RewriteKeepsInv(s, c, c.(threadRef := providerId));
    } else {
      assert s' == s;
    }
  }

  lemma RewriteKeepsInv(s: State, c: Conversation, c': Conversation)
    requires Inv(s) && Stored(s, c) && c' == c.(threadRef := c'.threadRef)
    ensures Inv(StoreConversation(s, c'))
  {
    assert ConversationInv(s, c.id);
    RewrittenKeepsInv(s, c, c', StoreConversation(s, c'));
  }

  lemma RewrittenKeepsInv(s: State, c: Conversation, c': Conversation, s': State)
    requires Inv(s) && Stored(s, c) && c' == c.(threadRef := c'.threadRef)
    requires s' == s.(conversations := s.conversations[c.id := c'])
    ensures Inv(s')
  {
    MessagesFrame(s, s');
    RewrittenConversations(s, c, c', s');
  }

  lemma RewrittenConversations(s: State, c: Conversation, c': Conversation, s': State)
    requires ConversationsOk(s) && OpenOk(s) && Stored(s, c) && c' == c.(threadRef := c'.threadRef)
    requires s' == s.(conversations := s.conversations[c.id := c'])
    ensures ConversationsOk(s') && OpenOk(s')
  {
    forall id | id in s'.conversations ensures ConversationInv(s', id) {
      assert ConversationInv(s, id);
    }
    forall a | a in s'.openBy ensures OpenInv(s', a) {
      assert OpenInv(s, a);
    }
  }

  lemma ResolveKeepsInv(s: State, address: Address)
    requires Inv(s)
    ensures Inv(Resolve(s, address)) && Stored(Resolve(s, address), Resolved(s, address))
    ensures AddressOf(Resolved(s, address)) == address
    ensures Resolve(s, address).messages == s.messages && Resolve(s, address).byProvider == s.byProvider
  {
    var s', c := Resolve(s, address), Resolved(s, address);
    if address in s.openBy {
      assert OpenInv(s, address) && ConversationInv(s, s.openBy[address]);
    } else {
      OpenedKeepsInv(s, address);
    }
  }

  lemma OpenedKeepsInv(s: State, address: Address)
    requires Inv(s) && address !in s.openBy
    ensures Inv(StoreConversation(s.(next := s.next + 1), Opened(s, address)))
  {
    var s' := StoreConversation(s.(next := s.next + 1), Opened(s, address));
    NoMessagesYet(s);
    OpenedConversations(s, address, s');
  }

  lemma OpenedConversations(s: State, address: Address, s': State)
    requires ConversationsOk(s) && OpenOk(s) && address !in s.openBy
    requires MessagesIn(s.messages, s.next) == {} && s.next !in s.conversations
    requires s' == StoreConversation(s.(next := s.next + 1), Opened(s, address))
    ensures ConversationsOk(s') && OpenOk(s')
  {
    forall id | id in s'.conversations ensures ConversationInv(s', id) {
      assert id in s.conversations ==> ConversationInv(s, id);
    }
    forall a | a in s'.openBy ensures OpenInv(s', a) {
      assert a in s.openBy ==> OpenInv(s, a);
    }
  }

  lemma NoMessagesYet(s: State)
    requires Inv(s)
    ensures MessagesIn(s.messages, s.next) == {} && s.next !in s.messages && s.next !in s.conversations
  {
    assert forall id :: id in s.messages ==> MessageInv(s, id);
    assert forall id :: id in s.conversations ==> ConversationInv(s, id);
  }

  /** A new message: an inbound one has a provider id not seen before, an outbound one has none. */
  predicate IsNew(s: State, inbound: bool, status: Status, providerId: string) {
    && status == (if inbound then Received else Queued)
    && (providerId != "" ==> inbound && providerId !in s.byProvider)
  }

  lemma OldMessageKept(s: State, c: Conversation, inbound: bool, status: Status, providerId: string, s': State, id: nat)
    requires s' == AddMessage(s, c, inbound, status, providerId)
    requires id in s.messages && id != s.next && MessageInv(s, id)
    ensures MessageInv(s', id)
  {
  }

  lemma NewMessageOk(s: State, c: Conversation, inbound: bool, status: Status, providerId: string, s': State)
    requires s' == AddMessage(s, c, inbound, status, providerId)
    requires s.next !in s.trail && IsNew(s, inbound, status, providerId)
    ensures MessageInv(s', s.next)
  {
    assert TrailOf(s', s.next) == [status];
  }

  lemma AddKeepsConversations(s: State, c: Conversation, inbound: bool, status: Status, providerId: string, id: nat)
    requires Inv(s) && Stored(s, c) && id in s.conversations
    ensures ConversationInv(AddMessage(s, c, inbound, status, providerId), id)
  {
    assert ConversationInv(s, id) && ConversationInv(s, c.id);
    AddedMessages(s, c, inbound, status, providerId, id);
  }

  lemma AddedMessages(s: State, c: Conversation, inbound: bool, status: Status, providerId: string, id: nat)
    requires Inv(s) && id in s.conversations
    ensures |MessagesIn(AddMessage(s, c, inbound, status, providerId).messages, id)| ==
            |MessagesIn(s.messages, id)| + if id == c.id then 1 else 0
  {
    NoMessagesYet(s);
    AddedMessage(s.messages, Message(s.next, c.id, inbound, status, providerId, 0, false), id);
  }

  lemma AddedMessage(messages: map<nat, Message>, m: Message, id: nat)
    requires m.id !in messages
    ensures |MessagesIn(messages[m.id := m], id)| == |MessagesIn(messages, id)| + if id == m.conversation then 1 else 0
  {
    assert MessagesIn(messages[m.id := m], id) ==
           MessagesIn(messages, id) + if id == m.conversation then {m.id} else {};
  }

  lemma AddKeepsUnique(s: State, c: Conversation, inbound: bool, status: Status, providerId: string)
    requires Inv(s) && IsNew(s, inbound, status, providerId)
    ensures InboundUnique(AddMessage(s, c, inbound, status, providerId))
  {
    assert forall id :: id in s.messages ==> MessageInv(s, id);
  }

  lemma AddKeepsInv(s: State, c: Conversation, inbound: bool, status: Status, providerId: string)
    requires Inv(s) && Stored(s, c) && IsNew(s, inbound, status, providerId)
    ensures Inv(AddMessage(s, c, inbound, status, providerId))
  {
    var s' := AddMessage(s, c, inbound, status, providerId);
    AddedMessagesOk(s, c, inbound, status, providerId, s');
    AddedConversationsOk(s, c, inbound, status, providerId, s');
    AddKeepsUnique(s, c, inbound, status, providerId);
    AddedProvidersOk(s, c, inbound, status, providerId, s');
  }

  lemma AddedMessagesOk(s: State, c: Conversation, inbound: bool, status: Status, providerId: string, s': State)
    requires Inv(s) && Stored(s, c) && IsNew(s, inbound, status, providerId)
    requires s' == AddMessage(s, c, inbound, status, providerId)
    ensures MessagesOk(s')
  {
    NoMessagesYet(s);
    NewMessageOk(s, c, inbound, status, providerId, s');
    forall id | id in s.messages ensures MessageInv(s', id) {
      OldMessageKept(s, c, inbound, status, providerId, s', id);
    }
  }

  lemma AddedConversationsOk(s: State, c: Conversation, inbound: bool, status: Status, providerId: string, s': State)
    requires Inv(s) && Stored(s, c) && s' == AddMessage(s, c, inbound, status, providerId)
    ensures ConversationsOk(s') && OpenOk(s')
  {
    assert ConversationInv(s, c.id);
    forall id | id in s'.conversations ensures ConversationInv(s', id) {
      AddKeepsConversations(s, c, inbound, status, providerId, id);
    }
  }

  lemma AddedProvidersOk(s: State, c: Conversation, inbound: bool, status: Status, providerId: string, s': State)
    requires ProvidersOk(s) && s.trail.Keys == s.messages.Keys && s' == AddMessage(s, c, inbound, status, providerId)
    ensures ProvidersOk(s') && s'.trail.Keys == s'.messages.Keys
  {
  }

  // ----- each call keeps it -----

  lemma IngestKeepsInv(s: State, address: Address, providerId: string)
    requires Inv(s)
    ensures Inv(Ingest(s, address, providerId))
  {
    if providerId == "" || providerId !in s.byProvider {
      ResolveKeepsInv(s, address);
      AddKeepsInv(Resolve(s, address), Resolved(s, address), true, Received, providerId);
    }
  }

  /** A message in dispatch: outbound, being sent, stored as it is. */
  ghost predicate InDispatch(s: State, m: Message) {
    m.id in s.messages && s.messages[m.id] == m && !m.inbound && m.status.Sending?
  }

  lemma {:induction false} AttemptsKeepInv(s: State, m: Message, c: Conversation, attempt: nat, n: nat,
                                           replies: nat -> Reply, s': State)
    requires Inv(s) && InDispatch(s, m) && Stored(s, c) && s' == Attempts(s, m, c, attempt, n, replies)
    ensures Inv(s')
    decreases n - attempt
  {
    if attempt >= n {
      SavedInDispatch(s, m, c, m.(status := Failed), s');
    } else if replies(attempt).Refused? {
      var next := StoreMessage(s, Failing(m));
      SavedInDispatch(s, m, c, Failing(m), next);
      AttemptsKeepInv(next, Failing(m), c, attempt + 1, n, replies, s');
    } else {
      AcceptedKeepsInv(s, m, c, replies(attempt).providerId, s');
    }
  }

  lemma AcceptedKeepsInv(s: State, m: Message, c: Conversation, providerId: string, s': State)
    requires Inv(s) && InDispatch(s, m) && Stored(s, c)
    requires s' == Threaded(StoreMessage(s, Succeeding(m, providerId)), c, providerId)
    ensures Inv(s')
  {
    var next := StoreMessage(s, Succeeding(m, providerId));
    SavedInDispatch(s, m, c, Succeeding(m, providerId), next);
    ThreadedKeepsInv(next, c, providerId, s');
  }

  /** What the message of a dispatch may be saved as. */
  predicate MaySave(m: Message, m': Message) {
    && m'.id == m.id && m'.conversation == m.conversation && !m'.inbound
    && (m'.status.Sending? || m'.status.Sent? || m'.status.Failed?)
  }

  lemma SavedInDispatch(s: State, m: Message, c: Conversation, m': Message, s': State)
    requires Inv(s) && InDispatch(s, m) && Stored(s, c) && s' == StoreMessage(s, m') && MaySave(m, m')
    ensures Inv(s') && Stored(s', c)
    ensures m'.status.Sending? ==> InDispatch(s', m')
  {
    assert Updates(s, m');
    UpdateKeepsInv(s, m');
  }

  lemma SendKeepsInv(s: State, address: Address, rendered: bool, replies: nat -> Reply, maxAttempts: int)
    requires Inv(s)
    ensures Inv(Send(s, address, rendered, replies, maxAttempts))
  {
    ResolveKeepsInv(s, address);
    if rendered {
      var open, c := Resolve(s, address), Resolved(s, address);
      DispatchKeepsInv(open, c, replies, Max(1, maxAttempts));
    }
  }

  lemma StartKeepsInv(s: State, c: Conversation)
    requires Inv(s) && Stored(s, c)
    ensures var sending := StoreMessage(AddMessage(s, c, false, Queued, ""), NewSending(s, c));
            Inv(sending) && InDispatch(sending, NewSending(s, c)) && Stored(sending, c.(count := c.count + 1))
  {
    AddKeepsInv(s, c, false, Queued, "");
    UpdateKeepsInv(AddMessage(s, c, false, Queued, ""), NewSending(s, c));
  }

  lemma DispatchKeepsInv(s: State, c: Conversation, replies: nat -> Reply, n: nat)
    requires Inv(s) && Stored(s, c)
    ensures Inv(Dispatched(s, c, replies, n))
  {
    StartKeepsInv(s, c);
    AttemptsKeepInv(StoreMessage(AddMessage(s, c, false, Queued, ""), NewSending(s, c)), NewSending(s, c),
                    c.(count := c.count + 1), 0, n, replies, Dispatched(s, c, replies, n));
  }

  lemma DeliverKeepsInv(s: State, target: Target, status: Status, error: bool, s': State)
    requires Inv(s) && s' == Deliver(s, target, status, error)
    ensures Inv(s')
  {
    var found := Find(s, target);
    if found.Some? && CanTransition(found.value.status, status) {
      UpdateKeepsInv(s, WithDelivery(found.value, status, error));
    } else {
      assert s' == s;
    }
  }

  // ----- whole runs -----

  datatype Op =
    | IngestOp(address: Address, providerId: string)
    | SendOp(address: Address, rendered: bool, replies: nat -> Reply)
    | DeliverOp(target: Target, status: Status, error: bool)

  function Step(s: State, op: Op, maxAttempts: int): State {
    match op
    case IngestOp(address, providerId) => Ingest(s, address, providerId)
    case SendOp(address, rendered, replies) => Send(s, address, rendered, replies, maxAttempts)
    case DeliverOp(target, status, error) => Deliver(s, target, status, error)
  }

  function Run(s: State, ops: seq<Op>, maxAttempts: int): State
    decreases |ops|
  {
    if ops == [] then s else Run(Step(s, ops[0], maxAttempts), ops[1..], maxAttempts)
  }

  /**
   In every run: each message's stored statuses are a path of the transition table, each
   conversation's message_count is its number of stored messages, an address has one
   conversation, and no inbound provider id is stored twice.
   */
  lemma {:induction false} RunsKeepInv(s: State, ops: seq<Op>, maxAttempts: int)
    requires Inv(s)
    ensures Inv(Run(s, ops, maxAttempts))
    decreases |ops|
  {
    if ops != [] {
      match ops[0] {
        case IngestOp(address, providerId) => IngestKeepsInv(s, address, providerId);
        case SendOp(address, rendered, replies) => SendKeepsInv(s, address, rendered, replies, maxAttempts);
        case DeliverOp(target, status, error) =>
          DeliverKeepsInv(s, target, status, error, Step(s, ops[0], maxAttempts));
      }
      RunsKeepInv(Step(s, ops[0], maxAttempts), ops[1..], maxAttempts);
    }
  }

  lemma StartIsInv()
    ensures Inv(EMPTY_STATE)
  {
  }

  // ----- idempotent intake -----

  /** Nothing recorded is taken back: provider ids stay known and status histories only grow. */
  ghost predicate Remembers(s: State, s': State) {
    && s.byProvider.Keys <= s'.byProvider.Keys
    && forall id {:trigger TrailOf(s', id)} :: TrailOf(s, id) <= TrailOf(s', id)
  }

  lemma StoreRemembers(s: State, m: Message)
    ensures Remembers(s, StoreMessage(s, m))
  {
  }

  lemma RemembersThrough(s: State, t: State, u: State)
    requires Remembers(s, t) && Remembers(t, u)
    ensures Remembers(s, u)
  {
    forall id ensures TrailOf(s, id) <= TrailOf(u, id) {
      assert TrailOf(s, id) <= TrailOf(t, id) <= TrailOf(u, id);
    }
  }

  lemma {:induction false} AttemptsRemember(s: State, m: Message, c: Conversation, attempt: nat, n: nat,
                                            replies: nat -> Reply)
    ensures Remembers(s, Attempts(s, m, c, attempt, n, replies))
    decreases n - attempt
  {
    if attempt >= n {
      StoreRemembers(s, m.(status := Failed));
    } else if replies(attempt).Refused? {
      StoreRemembers(s, Failing(m));
      AttemptsRemember(StoreMessage(s, Failing(m)), Failing(m), c, attempt + 1, n, replies);
      RemembersThrough(s, StoreMessage(s, Failing(m)), Attempts(s, m, c, attempt, n, replies));
    } else {
      StoreRemembers(s, Succeeding(m, replies(attempt).providerId));
    }
  }

  lemma AddRemembers(s: State, c: Conversation, inbound: bool, status: Status, providerId: string)
    ensures Remembers(s, AddMessage(s, c, inbound, status, providerId))
  {
    StoreRemembers(s.(next := s.next + 1), Message(s.next, c.id, inbound, status, providerId, 0, false));
  }

  lemma DispatchRemembers(s: State, c: Conversation, replies: nat -> Reply, n: nat)
    ensures Remembers(s, Dispatched(s, c, replies, n))
  {
    var added := AddMessage(s, c, false, Queued, "");
    var sending := StoreMessage(added, NewSending(s, c));
    AddRemembers(s, c, false, Queued, "");
    StoreRemembers(added, NewSending(s, c));
    RemembersThrough(s, added, sending);
    AttemptsRemember(sending, NewSending(s, c), c.(count := c.count + 1), 0, n, replies);
    RemembersThrough(s, sending, Dispatched(s, c, replies, n));
  }

  lemma StepRemembers(s: State, op: Op, maxAttempts: int)
    ensures Remembers(s, Step(s, op, maxAttempts))
  {
    match op
    case IngestOp(address, providerId) =>
      AddRemembers(Resolve(s, address), Resolved(s, address), true, Received, providerId);
    case SendOp(address, rendered, replies) =>
      DispatchRemembers(Resolve(s, address), Resolved(s, address), replies, Max(1, maxAttempts));
    case DeliverOp(target, status, error) =>
      var m := Find(s, target);
      if m.Some? {
        StoreRemembers(s, WithDelivery(m.value, status, error));
      }
  }

  lemma {:induction false} RunRemembers(s: State, ops: seq<Op>, maxAttempts: int)
    ensures Remembers(s, Run(s, ops, maxAttempts))
    decreases |ops|
  {
    if ops != [] {
      var next := Step(s, ops[0], maxAttempts);
      StepRemembers(s, ops[0], maxAttempts);
      RunRemembers(next, ops[1..], maxAttempts);
      RemembersThrough(s, next, Run(s, ops, maxAttempts));
    }
  }

  /** A provider id taken in once is never stored again: replays change nothing, whatever happened since. */
  lemma ReplayChangesNothing(s: State, first: Address, ops: seq<Op>, replay: Address, providerId: string,
                             maxAttempts: int)
    requires Inv(s) && providerId != ""
    ensures var later := Run(Ingest(s, first, providerId), ops, maxAttempts);
            Ingest(later, replay, providerId) == later
  {
    var taken := Ingest(s, first, providerId);
    IngestKeepsInv(s, first, providerId);
    RunsKeepInv(taken, ops, maxAttempts);
    RunRemembers(taken, ops, maxAttempts);
  }

  // ----- statuses -----

  lemma {:induction false} FinalOnPath(trail: seq<Status>, inbound: bool, i: nat, j: nat)
    requires IsPath(trail, inbound) && i <= j < |trail| && Allowed(trail[i]) == {}
    ensures trail[j] == trail[i]
    decreases j
  {
    if i < j {
      FinalOnPath(trail, inbound, i, j - 1);
      assert CanTransition(trail[j - 1], trail[j]);
    }
  }

  /** A read message stays read and a received one received, through any later calls. */
  lemma FinalStatusesStay(s: State, ops: seq<Op>, maxAttempts: int, id: nat)
    requires Inv(s) && id in s.messages && Allowed(s.messages[id].status) == {}
    ensures var later := Run(s, ops, maxAttempts);
            id in later.messages && later.messages[id].status == s.messages[id].status
  {
    RunsKeepInv(s, ops, maxAttempts);
    RunRemembers(s, ops, maxAttempts);
    KeepsFinal(s, Run(s, ops, maxAttempts), id);
  }

  lemma KeepsFinal(s: State, later: State, id: nat)
    requires MessagesOk(s) && MessagesOk(later) && later.trail.Keys == later.messages.Keys && Remembers(s, later)
    requires id in s.messages && Allowed(s.messages[id].status) == {}
    ensures id in later.messages && later.messages[id].status == s.messages[id].status
  {
    assert MessageInv(s, id) && TrailOf(s, id) <= TrailOf(later, id);
    assert id in later.messages && MessageInv(later, id);
    FinalStays(TrailOf(s, id), TrailOf(later, id), later.messages[id].inbound);
  }

  lemma FinalStays(before: seq<Status>, after: seq<Status>, inbound: bool)
    requires before <= after && before != [] && IsPath(after, inbound) && Allowed(before[|before| - 1]) == {}
    ensures after[|after| - 1] == before[|before| - 1]
  {
    FinalOnPath(after, inbound, |before| - 1, |after| - 1);
  }

  /** The first call from number attempt on, of n, that the gateway accepts; n when none is. */
  ghost predicate FirstAccepted(replies: nat -> Reply, attempt: nat, n: nat, k: nat) {
    && attempt <= k <= n
    && (forall i: nat :: attempt <= i < k ==> replies(i).Refused?)
    && (k < n ==> replies(k).Accepted?)
  }

  lemma {:induction false} AttemptsOutcome(s: State, m: Message, c: Conversation, attempt: nat, n: nat,
                                           replies: nat -> Reply, k: nat)
    requires FirstAccepted(replies, attempt, n, k)
    ensures var sent := Attempts(s, m, c, attempt, n, replies).messages;
            && m.id in sent
            && sent[m.id].status == (if k < n then Sent else Failed)
            && sent[m.id].attempts == m.attempts + (k - attempt) + (if k < n then 1 else 0)
            && (k < n ==> sent[m.id].providerId == replies(k).providerId && !sent[m.id].hasError)
    decreases n - attempt
  {
    if attempt < k {
      AttemptsOutcome(StoreMessage(s, Failing(m)), Failing(m), c, attempt + 1, n, replies, k);
    }
  }

  /** There is such a call number, for every gateway. */
  lemma {:induction false} SomeFirstAccepted(replies: nat -> Reply, attempt: nat, n: nat)
    requires attempt <= n
    ensures exists k :: FirstAccepted(replies, attempt, n, k)
    decreases n - attempt
  {
    if attempt < n && replies(attempt).Refused? {
      SomeFirstAccepted(replies, attempt + 1, n);
      var k :| FirstAccepted(replies, attempt + 1, n, k);
      assert FirstAccepted(replies, attempt, n, k);
    } else {
      assert FirstAccepted(replies, attempt, n, attempt);
    }
  }

  /**
   For every gateway: a send makes at most max(1, maxAttempts) gateway calls, stops at the first
   that is accepted, number k, and ends SENT under that call's provider id, or FAILED when every
   one was refused.
   */
  lemma SendEnds(s: State, address: Address, replies: nat -> Reply, maxAttempts: int) returns (k: nat)
    ensures FirstAccepted(replies, 0, Max(1, maxAttempts), k)
    ensures var n, m := Max(1, maxAttempts), Resolve(s, address).next;
            var after := Send(s, address, true, replies, maxAttempts);
            && m in after.messages
            && after.messages[m].attempts == (if k < n then k + 1 else n) <= n
            && after.messages[m].status == (if k < n then Sent else Failed)
            && (k < n ==> after.messages[m].providerId == replies(k).providerId)
  {
    var open, c := Resolve(s, address), Resolved(s, address);
    SomeFirstAccepted(replies, 0, Max(1, maxAttempts));
    k :| FirstAccepted(replies, 0, Max(1, maxAttempts), k);
    AttemptsOutcome(StoreMessage(AddMessage(open, c, false, Queued, ""), NewSending(open, c)), NewSending(open, c),
                    c.(count := c.count + 1), 0, Max(1, maxAttempts), replies, k);
  }

  // ----- one provider index for both directions -----

  /** An inbound message is stored iff its provider id is empty or not in the index yet. */
  lemma StoredIff(s: State, address: Address, providerId: string)
    requires Inv(s)
    ensures Ingest(s, address, providerId).messages != s.messages <==> providerId == "" || providerId !in s.byProvider
  {
    ResolveKeepsInv(s, address);
    NoMessagesYet(Resolve(s, address));
    assert Resolve(s, address).next !in s.messages;
  }

  /**
   The index does not tell inbound ids from outbound ones: once a send was accepted under an id,
   an inbound message with that id is dropped, and the answer is the outbound message.
   */
  lemma InboundDroppedAfterSend(address: Address, providerId: string, maxAttempts: int) returns (later: State)
    requires providerId != ""
    ensures later == Run(EMPTY_STATE, [SendOp(address, true, _ => Accepted(providerId))], maxAttempts)
    ensures Ingest(later, address, providerId) == later
    ensures FindByProvider(later, providerId).Some? && !FindByProvider(later, providerId).value.inbound
    ensures forall id :: id in later.messages ==> !later.messages[id].inbound
  {
    var replies := (_: nat) => Accepted(providerId);
    var send := SendOp(address, true, replies);
    later := Send(EMPTY_STATE, address, true, replies, maxAttempts);
    assert [send][1..] == [];
    SentFirst(address, replies, providerId, Max(1, maxAttempts));
  }

  lemma SentFirst(address: Address, replies: nat -> Reply, providerId: string, n: nat)
    requires providerId != "" && n > 0 && replies(0) == Accepted(providerId)
    ensures var after := Dispatched(Resolve(EMPTY_STATE, address), Resolved(EMPTY_STATE, address), replies, n);
            && after.messages.Keys == {1} && !after.messages[1].inbound
            && providerId in after.byProvider && after.byProvider[providerId] == 1
  {
  }
}
