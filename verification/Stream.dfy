/**
 Ordered delivery over a stream with a consumer group
 (app/shared/events/stream.py, InMemoryStreamTransport and StreamEventBus).

 Message ids are the numbers 1, 2, 3, ... in publish order. A crash may hit the consumer
 between any two of its actions; handlers may fail at will, which the bus only logs.
 */
module Stream {
  import opened Sequences

  type Event = string

  /** The transport's state, and the part of the current batch that is not acknowledged yet;
      begun says that its first message has been handed to the handlers. Three histories:
      messages handed to the handlers, acknowledged, and abandoned by a crash. */
  datatype State = State(
    log: seq<Event>,
    cursor: nat,
    pending: set<nat>,
    batch: seq<nat>,
    begun: bool,
    handled: seq<nat>,
    acked: seq<nat>,
    lost: seq<nat>)

  const EMPTY := State([], 0, {}, [], false, [], [], [])

  /** Message ids from + 1, ..., to. */
  function Ids(from: nat, to: nat): (r: seq<nat>)
    requires from <= to
    ensures |r| == to - from
    ensures forall i :: 0 <= i < |r| ==> r[i] == from + 1 + i
  {
    seq(to - from, i requires 0 <= i < to - from => from + 1 + i)
  }

  function ReadEnd(s: State, count: nat): nat {
    if s.cursor + count <= |s.log| then s.cursor + count
    else if s.cursor <= |s.log| then |s.log| else s.cursor
  }

  function Publish(s: State, e: Event): State {
    s.(log := s.log + [e])
  }

  function ReadBatch(s: State, count: nat): State
    requires s.cursor <= |s.log|
  {
    var end := ReadEnd(s, count);
    s.(cursor := end, batch := Ids(s.cursor, end), begun := false,
       pending := s.pending + ToSet(Ids(s.cursor, end)))
  }

  function Handle(s: State): State
    requires s.batch != []
  {
    s.(handled := s.handled + [s.batch[0]], begun := true)
  }

  function Ack(s: State): State
    requires s.batch != []
  {
    s.(pending := s.pending - {s.batch[0]}, acked := s.acked + [s.batch[0]], batch := s.batch[1..], begun := false)
  }

  function Crash(s: State): State {
    s.(lost := s.lost + s.batch, batch := [], begun := false)
  }

  /** The rest of a batch, handled and acknowledged message by message. */
  function Drained(s: State): State
    decreases |s.batch|
  {
    if s.batch == [] then s else Drained(Ack(Handle(s)))
  }

  function EventsOf(log: seq<(nat, Event)>): (r: seq<Event>)
    ensures |r| == |log|
    ensures forall i :: 0 <= i < |log| ==> r[i] == log[i].1
  {
    seq(|log|, i requires 0 <= i < |log| => log[i].1)
  }

  function IdsOf(records: seq<(nat, Event)>): (r: seq<nat>)
    ensures |r| == |records|
    ensures forall i :: 0 <= i < |r| ==> r[i] == records[i].0
  {
    seq(|records|, i requires 0 <= i < |records| => records[i].0)
  }

  class StreamEventBus {
    var log: seq<(nat, Event)>
    var last: nat
    var cursor: nat
    var pending: map<nat, Event>
    const batchSize: nat
    ghost var handled: seq<nat>
    ghost var acked: seq<nat>
    ghost var lost: seq<nat>

    ghost predicate Valid()
      reads this
    {
      && last == |log| && cursor <= last
      && (forall i :: 0 <= i < |log| ==> log[i].0 == i + 1)
      && (forall id :: id in pending ==> 0 < id <= |log| && pending[id] == log[id - 1].1)
    }

    ghost function View(): State
      reads this
    {
      State(EventsOf(log), cursor, pending.Keys, [], false, handled, acked, lost)
    }

    constructor (batchSize: nat)
      ensures Valid() && View() == EMPTY && this.batchSize == batchSize
    {
      this.batchSize := batchSize;
      log, last, cursor, pending := [], 0, 0, map[];
      handled, acked, lost := [], [], [];
    }

    method PublishEvent(e: Event)
      requires Valid()
      modifies this
      ensures Valid() && View() == Publish(old(View()), e)
    {
      last := last + 1;
      log := log + [(last, e)];
    }

    method ReadRecords(count: nat) returns (records: seq<(nat, Event)>)
      requires Valid()
      modifies this
      ensures Valid() && View() == ReadBatch(old(View()), count).(batch := [])
      ensures IdsOf(records) == ReadBatch(old(View()), count).batch
      ensures records == old(log)[old(cursor)..old(cursor) + |records|]
      ensures |records| == if count <= |old(log)| - old(cursor) then count else |old(log)| - old(cursor)
      ensures log == old(log) && cursor == old(cursor) + |records|
    {
      var end := if cursor + count <= |log| then cursor + count else |log|;
      records := log[cursor..end];
      assert end == ReadEnd(View(), count);
      assert forall i :: 0 <= i < |records| ==> records[i].0 == cursor + 1 + i;
      assert IdsOf(records) == Ids(cursor, end);
      cursor := cursor + |records|;
      MarkPending(records);
    }

    method MarkPending(records: seq<(nat, Event)>)
      requires Valid()
      requires forall i :: 0 <= i < |records| ==> 0 < records[i].0 <= |log| && log[records[i].0 - 1] == records[i]
      modifies this`pending
      ensures Valid() && pending.Keys == old(pending.Keys) + ToSet(IdsOf(records))
    {
      for i := 0 to |records|
        invariant Valid() && pending.Keys == old(pending.Keys) + ToSet(IdsOf(records[..i]))
      {
        pending := pending[records[i].0 := records[i].1];
        assert IdsOf(records[..i + 1]) == IdsOf(records[..i]) + [records[i].0];
        ToSetAppend(IdsOf(records[..i]), records[i].0);
      }
      assert records[..|records|] == records;
    }

    method AckRecord(id: nat)
      requires Valid()
      modifies this
      ensures Valid() && View() == old(View()).(pending := old(View()).pending - {id}, acked := old(acked) + [id])
    {
      pending := pending - {id};
      acked := acked + [id];
    }

    method DrainRecords(records: seq<(nat, Event)>)
      requires Valid()
      modifies this
      ensures Valid() && View() == Drained(old(View()).(batch := IdsOf(records)))
    {
      ghost var batch := IdsOf(records);
      for i := 0 to |records|
        invariant Valid() && |batch| == |records|
        invariant Drained(View().(batch := batch[i..])) == Drained(old(View()).(batch := batch))
      {
        ghost var s := View().(batch := batch[i..]);
        handled := handled + [records[i].0];
        AckRecord(records[i].0);
        assert batch[i..][1..] == batch[i + 1..];
        assert View().(batch := batch[i + 1..]) == Ack(Handle(s));
      }
    }

    /** One batch, without a crash; a count of zero means the configured batch size. */
    method ConsumeOnce(count: nat) returns (consumed: nat)
      requires Valid()
      modifies this
      ensures Valid()
      ensures var read := ReadBatch(old(View()), if count == 0 then batchSize else count);
              View() == Drained(read) && consumed == |read.batch|
    {
      var records := ReadRecords(if count == 0 then batchSize else count);
      DrainRecords(records);
      consumed := |records|;
    }
  }

  // ----- runs, with crashes -----

  datatype Step = PublishStep(e: Event) | ReadStep(count: nat) | HandleStep | AckStep | CrashStep

  predicate Enabled(s: State, step: Step) {
    match step
    case PublishStep(_) => true
    case ReadStep(_) => s.batch == []
    case HandleStep => s.batch != [] && !s.begun
    case AckStep => s.batch != [] && s.begun
    case CrashStep => true
  }

  function Apply(s: State, step: Step): State
    requires Enabled(s, step) && s.cursor <= |s.log|
  {
    match step
    case PublishStep(e) => Publish(s, e)
    case ReadStep(count) => ReadBatch(s, count)
    case HandleStep => Handle(s)
    case AckStep => Ack(s)
    case CrashStep => Crash(s)
  }

  ghost predicate Increasing(ids: seq<nat>) {
    forall i, j :: 0 <= i < j < |ids| ==> ids[i] < ids[j]
  }

  /**
   Every message up to the cursor is in exactly one of three places, each in publish order:
   acknowledged, in the current batch, or lost with an earlier one.
   */
  ghost predicate Inv(s: State) {
    && s.cursor <= |s.log| && |s.batch| <= s.cursor
    && s.batch == Ids(s.cursor - |s.batch|, s.cursor)
    && Increasing(s.handled) && Increasing(s.acked) && Increasing(s.lost)
    && (forall id :: 0 < id <= s.cursor - |s.batch| <==> id in s.acked || id in s.lost)
    && (forall id :: id in s.acked ==> id !in s.lost)
    && s.pending == ToSet(s.lost) + ToSet(s.batch)
    && (forall id :: id in s.acked ==> id in s.handled)
    && (forall id :: id in s.handled ==> id <= s.cursor - |s.batch| + if s.begun then 1 else 0)
    && (s.begun ==> s.batch != [] && s.batch[0] in s.handled)
  }

  lemma IdsMembers(from: nat, to: nat)
    requires from <= to
    ensures forall id :: id in Ids(from, to) <==> from < id <= to
  {
    forall id | from < id <= to ensures id in Ids(from, to) {
      assert Ids(from, to)[id - from - 1] == id;
    }
  }

  lemma IncreasingConcat(a: seq<nat>, b: seq<nat>)
    requires Increasing(a) && Increasing(b) && forall x, y :: x in a && y in b ==> x < y
    ensures Increasing(a + b)
  {
    forall i, j | 0 <= i < j < |a + b| ensures (a + b)[i] < (a + b)[j] {
      assert i < |a| ==> (a + b)[i] in a;
      assert j >= |a| ==> (a + b)[j] in b;
    }
  }

  lemma HandleKeepsInv(s: State)
    requires Inv(s) && s.batch != [] && !s.begun
    ensures Inv(Handle(s))
  {
    var s' := Handle(s);
    IncreasingConcat(s.handled, [s.batch[0]]);
    assert forall id :: id in s'.handled <==> id in s.handled || id == s.batch[0];
  }

  lemma AckKeepsInv(s: State)
    requires Inv(s) && s.batch != [] && s.begun
    ensures Inv(Ack(s))
  {
    var s' := Ack(s);
    IncreasingConcat(s.acked, [s.batch[0]]);
    assert forall id :: id in s'.acked <==> id in s.acked || id == s.batch[0];
    assert s.batch == [s.batch[0]] + s'.batch;
    assert s.batch[0] == s.cursor - |s.batch| + 1;
    assert s.batch[0] !in s.lost;
  }

  lemma CrashKeepsInv(s: State)
    requires Inv(s)
    ensures Inv(Crash(s))
  {
    var s' := Crash(s);
    IncreasingConcat(s.lost, s.batch);
    IdsMembers(s.cursor - |s.batch|, s.cursor);
    assert forall id :: id in s'.lost <==> id in s.lost || id in s.batch;
  }

  ghost predicate IsRun(tr: seq<State>, steps: seq<Step>) {
    && |tr| == |steps| + 1 && tr[0] == EMPTY
    && forall i :: 0 <= i < |steps| ==>
                     tr[i].cursor <= |tr[i].log| && Enabled(tr[i], steps[i]) && tr[i + 1] == Apply(tr[i], steps[i])
  }

  lemma {:induction false} RunsKeepInv(tr: seq<State>, steps: seq<Step>, i: nat)
    requires IsRun(tr, steps) && i < |tr|
    ensures Inv(tr[i])
  {
    if i > 0 {
      var s := tr[i - 1];
      RunsKeepInv(tr, steps, i - 1);
      match steps[i - 1]
      case HandleStep => HandleKeepsInv(s);
      case AckStep => AckKeepsInv(s);
      case CrashStep => CrashKeepsInv(s);
      case _ =>
    }
  }

  /**
   In every run, crashes included: each message read so far is in exactly one of three places,
   acknowledged, in the current batch or lost, each in publish order; the rest of the log is
   undelivered; and pending are exactly the lost ones and the current batch.
   */
  lemma ReadMessagesArePartitioned(tr: seq<State>, steps: seq<Step>, i: nat, id: nat)
    requires IsRun(tr, steps) && i < |tr|
    ensures var s := tr[i];
            && s.cursor <= |s.log|
            && Increasing(s.acked) && Increasing(s.batch) && Increasing(s.lost)
            && (0 < id <= s.cursor <==> id in s.acked || id in s.batch || id in s.lost)
            && !(id in s.acked && id in s.batch) && !(id in s.acked && id in s.lost) && !(id in s.batch && id in s.lost)
            && (id in s.pending <==> id in s.lost || id in s.batch)
  {
    RunsKeepInv(tr, steps, i);
    IdsMembers(tr[i].cursor - |tr[i].batch|, tr[i].cursor);
  }

  /** In every run, crashes included, messages reach the handlers in publish order and at most once. */
  lemma HandledInOrder(tr: seq<State>, steps: seq<Step>, i: nat)
    requires IsRun(tr, steps) && i < |tr|
    ensures Increasing(tr[i].handled)
    ensures forall id :: id in tr[i].handled ==> 0 < id <= |tr[i].log|
  {
    RunsKeepInv(tr, steps, i);
    if i > 0 {
      HandledInOrder(tr, steps, i - 1);
    }
  }

  /** A crash loses exactly the unacknowledged rest of the one batch being consumed. */
  lemma CrashLosesRemainder(tr: seq<State>, steps: seq<Step>, i: nat)
    requires IsRun(tr, steps) && i < |steps| && steps[i].CrashStep?
    ensures var s, s' := tr[i], tr[i + 1];
            && s'.lost == s.lost + s.batch
            && |s.batch| <= s.cursor && s.batch == Ids(s.cursor - |s.batch|, s.cursor)
            && (forall id :: id in s.batch ==> id !in s.acked && id in s'.pending)
            && s'.log == s.log && s'.cursor == s.cursor && s'.acked == s.acked && s'.handled == s.handled
  {
    RunsKeepInv(tr, steps, i);
    IdsMembers(tr[i].cursor - |tr[i].batch|, tr[i].cursor);
  }

  /** A message lost in a crash stays pending and is never handed to the handlers again. */
  lemma {:induction false} NeverRedelivered(tr: seq<State>, steps: seq<Step>, i: nat, j: nat, id: nat)
    requires IsRun(tr, steps) && i <= j < |tr| && id in tr[i].lost
    ensures id in tr[j].lost && id in tr[j].pending
    ensures tr[i].handled <= tr[j].handled && id !in tr[j].handled[|tr[i].handled|..]
    decreases j
  {
    RunsKeepInv(tr, steps, j);
    if i < j {
      NeverRedelivered(tr, steps, i, j - 1, id);
      RunsKeepInv(tr, steps, j - 1);
    }
  }

  /** In every run a read delivers the next messages of the log, as many as were asked for or as
      there are, and changes neither the log nor what was handled, acknowledged or lost. */
  lemma ReadDelivers(tr: seq<State>, steps: seq<Step>, i: nat)
    requires IsRun(tr, steps) && i < |steps| && steps[i].ReadStep?
    ensures var s, s', count := tr[i], tr[i + 1], steps[i].count;
            var n := if count <= |s.log| - s.cursor then count else |s.log| - s.cursor;
            && |s'.batch| == n && (forall k :: 0 <= k < n ==> s'.batch[k] == s.cursor + k + 1)
            && s'.cursor == s.cursor + n && s'.log == s.log
            && s'.handled == s.handled && s'.acked == s.acked && s'.lost == s.lost
  {
  }

  /** Until the first crash nothing is lost and every message is acknowledged once handled. */
  ghost predicate Clean(s: State) {
    && |s.batch| <= s.cursor <= |s.log| && s.lost == []
    && s.batch == Ids(s.cursor - |s.batch|, s.cursor)
    && s.acked == Ids(0, s.cursor - |s.batch|)
    && (s.begun ==> s.batch != [])
    && s.handled == s.acked + if s.begun then [s.batch[0]] else []
  }

  lemma {:induction false} CleanRuns(tr: seq<State>, steps: seq<Step>, i: nat)
    requires IsRun(tr, steps) && i < |tr|
    requires forall k :: 0 <= k < i ==> !steps[k].CrashStep?
    ensures Clean(tr[i])
  {
    if i > 0 {
      CleanRuns(tr, steps, i - 1);
    }
  }

  /**
   Without a crash the published log is, in order, what is acknowledged, what is read but not
   acknowledged, and what is not delivered; and each acknowledged message was handled exactly once.
   */
  lemma LogIsPartitioned(tr: seq<State>, steps: seq<Step>, i: nat)
    requires IsRun(tr, steps) && i < |tr|
    requires forall k :: 0 <= k < i ==> !steps[k].CrashStep?
    ensures var s := tr[i];
            && s.cursor <= |s.log| && s.acked + s.batch + Ids(s.cursor, |s.log|) == Ids(0, |s.log|)
            && s.acked <= s.handled && |s.handled| <= |s.acked| + 1
            && s.pending == ToSet(s.batch)
  {
    CleanRuns(tr, steps, i);
    RunsKeepInv(tr, steps, i);
  }

  /** A consumer that finishes its batch has handled and acknowledged all it read. */
  lemma {:induction false} DrainFinishes(s: State)
    requires Clean(s) && !s.begun
    ensures Clean(Drained(s)) && Drained(s).batch == []
    ensures Drained(s).handled == Drained(s).acked == Ids(0, s.cursor)
    decreases |s.batch|
  {
    if s.batch != [] {
      DrainFinishes(Ack(Handle(s)));
    }
  }

  /** n rounds of consume_once, without a crash or a publication in between. */
  function Rounds(s: State, count: nat, n: nat): (r: State)
    requires s.cursor <= |s.log|
    ensures r.cursor <= |r.log|
  {
    if n == 0 then s
    else
      var read := ReadBatch(Rounds(s, count, n - 1), count);
      DrainKeepsLog(read);
      Drained(read)
  }

  lemma {:induction false} DrainKeepsLog(s: State)
    ensures Drained(s).log == s.log && Drained(s).cursor == s.cursor
    decreases |s.batch|
  {
    if s.batch != [] {
      DrainKeepsLog(Ack(Handle(s)));
    }
  }

  /** After n rounds of up to count messages, exactly the next n * count messages, or all there are,
      have been handled and acknowledged, so enough rounds deliver everything. */
  lemma {:induction false} RoundsDeliver(s: State, count: nat, n: nat)
    requires Clean(s) && s.batch == [] && !s.begun
    ensures var s', asked := Rounds(s, count, n), s.cursor + n * count;
            var end := if asked <= |s.log| then asked else |s.log|;
            && Clean(s') && s'.batch == [] && !s'.begun && s'.log == s.log
            && s'.cursor == end && s'.handled == s'.acked == Ids(0, end)
  {
    if n > 0 {
      RoundsDeliver(s, count, n - 1);
      var read := ReadBatch(Rounds(s, count, n - 1), count);
      DrainFinishes(read);
      DrainKeepsLog(read);
      assert n * count == (n - 1) * count + count;
    }
  }
}
