/** What each call of the communication service stores, field by field, and what it leaves alone. */
module MessagingCalls {
  import opened Shared
  import opened Sequences
  import opened Messaging
  import opened MessagingRuns

  // ----- delivery callbacks -----

  /** The transition table. */
  const TRANSITIONS: set<(Status, Status)> :=
    {(Queued, Sending), (Queued, Failed), (Sending, Sent), (Sending, Failed), (Sent, Delivered), (Sent, Read),
     (Sent, Failed), (Delivered, Read), (Failed, Queued)}

  /** The callback names message m, by its id or by a provider id that is indexed under it. */
  predicate Names(s: State, target: Target, id: nat) {
    match target
    case ById(x) => x == id
    case ByProvider(p) => p in s.byProvider && s.byProvider[p] == id
  }

  /**
   A callback for a stored message to a status it may take, or has, stores that status and the
   callback's error if it is a failure, keeps every other field, and lengthens the status history
   by one. Other messages, their histories and all conversations stay as they were.
   */
  lemma AllowedCallback(s: State, target: Target, status: Status, error: bool, m: Message, s': State)
    requires s' == Deliver(s, target, status, error)
    requires m.id in s.messages && s.messages[m.id] == m && Names(s, target, m.id)
    requires m.status == status || (m.status, status) in TRANSITIONS
    ensures var hasError := if status == Failed then error else m.hasError;
            s'.messages == s.messages[m.id := Message(m.id, m.conversation, m.inbound, status, m.providerId,
                                                      m.attempts, hasError)]
    ensures s'.trail == s.trail[m.id := TrailOf(s, m.id) + [status]]
    ensures s'.byProvider == if m.providerId == "" then s.byProvider else s.byProvider[m.providerId := m.id]
    ensures s'.conversations == s.conversations && s'.openBy == s.openBy && s'.next == s.next
  {
    assert CanTransition(m.status, status);
  }

  /** Any other callback, for an unknown message or to a status the table does not allow, changes nothing. */
  lemma RefusedCallback(s: State, target: Target, status: Status, error: bool)
    requires forall id :: Names(s, target, id) && id in s.messages ==>
                            s.messages[id].status != status && (s.messages[id].status, status) !in TRANSITIONS
    ensures Deliver(s, target, status, error) == s
  {
    var m := Find(s, target);
    if m.Some? {
      var id := if target.ById? then target.id else s.byProvider[target.providerId];
      assert Names(s, target, id);
      assert !CanTransition(m.value.status, status);
    }
  }

  // ----- conversations -----

  /** The id the address's conversation has, or gets. */
  function ConversationId(s: State, address: Address): nat {
    if address in s.openBy then s.openBy[address] else s.next
  }

  /** The conversation of the address, as it is or as it is opened. */
  function ConversationOf(s: State, address: Address): Conversation
    requires address in s.openBy ==> s.openBy[address] in s.conversations
  {
    if address in s.openBy then s.conversations[s.openBy[address]]
    else Conversation(s.next, address.0, address.1, 0, "")
  }

  lemma OpensOnlyThat(s: State, address: Address, s': State)
    requires Inv(s) && s' == Resolve(s, address)
    ensures address in s.openBy ==> s.openBy[address] in s.conversations
    ensures var c := ConversationOf(s, address);
            && c.id == ConversationId(s, address) && (c.channel, c.identity) == address
            && s' == s.(conversations := s.conversations[c.id := c], openBy := s.openBy[address := c.id],
                        next := if address in s.openBy then s.next else s.next + 1)
    ensures Resolved(s, address) == ConversationOf(s, address)
  {
    if address in s.openBy {
      assert OpenInv(s, address) && ConversationInv(s, s.openBy[address]);
      MapSameUpdate(s.conversations, s.openBy[address]);
      MapSameUpdate(s.openBy, address);
    }
  }

  // ----- intake -----

  /** A new inbound message is stored as received under a fresh id in its address's conversation,
      indexed under its provider id, and counted there once; nothing else changes. */
  lemma IntakeStores(s: State, address: Address, providerId: string, s': State)
    requires Inv(s) && s' == Ingest(s, address, providerId)
    requires providerId == "" || providerId !in s.byProvider
    ensures address in s.openBy ==> s.openBy[address] in s.conversations
    ensures var c, id := ConversationOf(s, address), if address in s.openBy then s.next else s.next + 1;
            && id !in s.messages
            && s'.messages == s.messages[id := Message(id, c.id, true, Received, providerId, 0, false)]
            && s'.byProvider == (if providerId == "" then s.byProvider else s.byProvider[providerId := id])
            && s'.conversations == s.conversations[c.id := c.(count := c.count + 1)]
            && s'.openBy == s.openBy[address := c.id] && s'.next == id + 1
            && s'.trail == s.trail[id := [Received]]
  {
    var open, c := Resolve(s, address), Resolved(s, address);
    OpensOnlyThat(s, address, open);
    FreshId(s, open.next);
    MapLastUpdate(s.conversations, c.id, c, c.(count := c.count + 1));
    MapLastUpdate(s.openBy, address, c.id, c.id);
    assert TrailOf(open, open.next) + [Received] == [Received];
  }

  lemma FreshId(s: State, id: nat)
    requires Inv(s) && s.next <= id
    ensures id !in s.messages && id !in s.trail
  {
    forall x | x in s.messages ensures x < s.next {
      assert MessageInv(s, x);
    }
  }

  // ----- sending -----

  /** Call number k of n is accepted under a provider id. */
  predicate GotId(n: nat, replies: nat -> Reply, k: nat) {
    k < n && replies(k).Accepted? && replies(k).providerId != ""
  }

  /** The message as calls number attempt to n leave it, when number k is the first one accepted. */
  function Ended(m: Message, attempt: nat, n: nat, replies: nat -> Reply, k: nat): Message
    requires attempt <= k <= n && (k < n ==> replies(k).Accepted?)
  {
    if k < n then Message(m.id, m.conversation, m.inbound, Sent, replies(k).providerId,
                          m.attempts + (k - attempt) + 1, false)
    else Message(m.id, m.conversation, m.inbound, Failed, m.providerId, m.attempts + (n - attempt),
                 m.hasError || attempt < n)
  }

  /** The statuses it is stored with on the way. */
  function SavedStatuses(attempt: nat, n: nat, k: nat): seq<Status>
    requires attempt <= k <= n
  {
    seq(k - attempt, _ => Sending) + [if k < n then Sent else Failed]
  }

  /** Its conversation after that: an accepted email's id becomes the thread reference. */
  function Threading(c: Conversation, n: nat, replies: nat -> Reply, k: nat): Conversation {
    if GotId(n, replies, k) && c.channel.Email? then c.(threadRef := replies(k).providerId) else c
  }

  /** c is stored as it is, and is its address's open conversation. */
  predicate IsOpen(s: State, c: Conversation) {
    && c.id in s.conversations && s.conversations[c.id] == c
    && (c.channel, c.identity) in s.openBy && s.openBy[(c.channel, c.identity)] == c.id
  }

  lemma {:induction false} AttemptsStore(s: State, m: Message, c: Conversation, attempt: nat, n: nat,
                                         replies: nat -> Reply, k: nat, s': State)
    requires FirstAccepted(replies, attempt, n, k) && s' == Attempts(s, m, c, attempt, n, replies)
    requires IsOpen(s, c) && m.providerId == "" && m.status.Sending?
    ensures s'.messages == s.messages[m.id := Ended(m, attempt, n, replies, k)]
    ensures s'.byProvider == if GotId(n, replies, k) then s.byProvider[replies(k).providerId := m.id] else s.byProvider
    ensures s'.conversations == s.conversations[c.id := Threading(c, n, replies, k)]
    ensures s'.openBy == s.openBy && s'.next == s.next
    ensures s'.trail == s.trail[m.id := TrailOf(s, m.id) + SavedStatuses(attempt, n, k)]
    decreases n - attempt
  {
    if attempt < k {
      var next := StoreMessage(s, Failing(m));
      AttemptsStore(next, Failing(m), c, attempt + 1, n, replies, k, s');
      assert SavedStatuses(attempt, n, k) == [Sending] + SavedStatuses(attempt + 1, n, k);
      Reassociate(TrailOf(s, m.id), [Sending], SavedStatuses(attempt + 1, n, k));
      MapLastUpdate(s.messages, m.id, Failing(m), Ended(m, attempt, n, replies, k));
      MapLastUpdate(s.trail, m.id, TrailOf(next, m.id), TrailOf(s, m.id) + SavedStatuses(attempt, n, k));
    } else {
      LastAttemptStores(s, m, c, attempt, n, replies, s');
    }
  }

  /** The same when the next call is accepted, or none is left. */
  lemma LastAttemptStores(s: State, m: Message, c: Conversation, attempt: nat, n: nat, replies: nat -> Reply,
                          s': State)
    requires FirstAccepted(replies, attempt, n, attempt) && s' == Attempts(s, m, c, attempt, n, replies)
    requires IsOpen(s, c) && m.providerId == ""
    ensures s' == State(
                    s.messages[m.id := Ended(m, attempt, n, replies, attempt)],
                    if GotId(n, replies, attempt) then s.byProvider[replies(attempt).providerId := m.id]
                    else s.byProvider,
                    s.conversations[c.id := Threading(c, n, replies, attempt)],
                    s.openBy,
                    s.next,
                    s.trail[m.id := TrailOf(s, m.id) + SavedStatuses(attempt, n, attempt)])
  {
    MapSameUpdate(s.conversations, c.id);
    MapSameUpdate(s.openBy, (c.channel, c.identity));
    assert SavedStatuses(attempt, n, attempt) == [if attempt < n then Sent else Failed];
  }

  /** A send whose text cannot be rendered opens the conversation and does nothing else. */
  lemma UnrenderedSend(s: State, address: Address, replies: nat -> Reply, maxAttempts: int)
    requires Inv(s)
    ensures address in s.openBy ==> s.openBy[address] in s.conversations
    ensures var c := ConversationOf(s, address);
            Send(s, address, false, replies, maxAttempts) ==
            s.(conversations := s.conversations[c.id := c], openBy := s.openBy[address := c.id],
               next := if address in s.openBy then s.next else s.next + 1)
  {
    OpensOnlyThat(s, address, Resolve(s, address));
  }

  /** The store when the first gateway call is made. */
  lemma QueuedThenSending(open: State, c: Conversation, s': State)
    requires IsOpen(open, c) && open.next !in open.trail
    requires s' == StoreMessage(AddMessage(open, c, false, Queued, ""), NewSending(open, c))
    ensures s' == open.(messages := open.messages[open.next := Message(open.next, c.id, false, Sending, "", 0, false)],
                        conversations := open.conversations[c.id := c.(count := c.count + 1)],
                        next := open.next + 1,
                        trail := open.trail[open.next := [Queued, Sending]])
  {
    var queued := Message(open.next, c.id, false, Queued, "", 0, false);
    MapLastUpdate(open.messages, open.next, queued, NewSending(open, c));
    MapLastUpdate(open.trail, open.next, [Queued], [Queued, Sending]);
    MapSameUpdate(open.openBy, (c.channel, c.identity));
    assert TrailOf(open, open.next) + [Queued] == [Queued] && [Queued] + [Sending] == [Queued, Sending];
  }

  /** From an open conversation on: one new outbound message is stored, counted once, and saved as
      the gateway's answers say. */
  lemma DispatchStores(open: State, c: Conversation, replies: nat -> Reply, n: nat, k: nat, s': State)
    requires IsOpen(open, c) && open.next !in open.trail && s' == Dispatched(open, c, replies, n)
    requires FirstAccepted(replies, 0, n, k)
    ensures var id, m := open.next, Message(open.next, c.id, false, Sending, "", 0, false);
            s' == open.(messages := open.messages[id := Ended(m, 0, n, replies, k)],
                        byProvider := if GotId(n, replies, k) then open.byProvider[replies(k).providerId := id]
                                      else open.byProvider,
                        conversations := open.conversations[c.id := Threading(c.(count := c.count + 1), n, replies, k)],
                        next := id + 1,
                        trail := open.trail[id := [Queued, Sending] + SavedStatuses(0, n, k)])
  {
    var sending := StoreMessage(AddMessage(open, c, false, Queued, ""), NewSending(open, c));
    QueuedThenSending(open, c, sending);
    AttemptsStore(sending, NewSending(open, c), c.(count := c.count + 1), 0, n, replies, k, s');
  }

  /** A send stores one new outbound message of its address's conversation, counts it there once,
      and saves it as the gateway's answers say; nothing else changes. */
  lemma SendStores(s: State, address: Address, replies: nat -> Reply, maxAttempts: int, k: nat, s': State)
    requires Inv(s) && s' == Send(s, address, true, replies, maxAttempts)
    requires FirstAccepted(replies, 0, Max(1, maxAttempts), k)
    ensures address in s.openBy ==> s.openBy[address] in s.conversations
    ensures var c, n := ConversationOf(s, address), Max(1, maxAttempts);
            var id := if address in s.openBy then s.next else s.next + 1;
            && id !in s.messages
            && s' == State(
                 s.messages[id := Ended(Message(id, c.id, false, Sending, "", 0, false), 0, n, replies, k)],
                 if GotId(n, replies, k) then s.byProvider[replies(k).providerId := id] else s.byProvider,
                 s.conversations[c.id := Threading(c.(count := c.count + 1), n, replies, k)],
                 s.openBy[address := c.id],
                 id + 1,
                 s.trail[id := [Queued, Sending] + SavedStatuses(0, n, k)])
  {
    var open := Resolve(s, address);
    OpensOnlyThat(s, address, open);
    FreshId(s, open.next);
    var c, n := Resolved(s, address), Max(1, maxAttempts);
    DispatchStores(open, c, replies, n, k, s');
    MapLastUpdate(s.conversations, c.id, c, Threading(c.(count := c.count + 1), n, replies, k));
  }
}
