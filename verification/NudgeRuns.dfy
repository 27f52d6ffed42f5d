/** The nudge invariant over whole runs of service calls. */
module NudgeRuns {
  import opened Shared
  import opened Sequences
  import opened Nudge
  import opened NudgeInvariant

  /** due holds distinct pending reminders as they are stored now. */
  ghost predicate Snapshot(s: State, due: seq<Reminder>) {
    && (forall i :: 0 <= i < |due| ==> IsStored(s, due[i]) && due[i].Due())
    && (forall i, j :: 0 <= i < j < |due| ==> due[i].id != due[j].id)
  }

  lemma PendingIsDispatchable(s: State, r: Reminder)
    requires Inv(s) && IsStored(s, r) && r.Due()
    ensures r.sequenceId in s.sequences && Dispatchable(s, r, s.sequences[r.sequenceId])
  {
    var sid := r.sequenceId;
    assert s.reminders[r.id].sequenceId == sid;
    assert SequenceInv(s, sid);
    assert r.id in Pending(s, sid);
  }

  /** A snapshot of due reminders never holds two of one sequence, and each one's sequence is active. */
  lemma SnapshotHasDistinctSequences(s: State, due: seq<Reminder>)
    requires Inv(s) && Snapshot(s, due)
    ensures forall i :: 0 <= i < |due| ==>
                          due[i].sequenceId in s.sequences && s.sequences[due[i].sequenceId].status.Active?
    ensures forall i, j :: 0 <= i < j < |due| ==> due[i].sequenceId != due[j].sequenceId
  {
    forall i | 0 <= i < |due|
      ensures due[i].sequenceId in s.sequences && s.sequences[due[i].sequenceId].status.Active?
    {
      PendingIsDispatchable(s, due[i]);
    }
    forall i, j | 0 <= i < j < |due|
      ensures due[i].sequenceId != due[j].sequenceId
    {
      PendingIsDispatchable(s, due[i]);
      SoleReminder(s, due[i], s.sequences[due[i].sequenceId]);
      assert due[j].id in Pending(s, due[j].sequenceId);
    }
  }

  /** An iteration over a snapshot never takes the terminal-sequence branch. */
  lemma ProcessDispatches(s: State, cfg: Config, r: Reminder, tick: Tick)
    requires Inv(s) && IsStored(s, r) && r.Due() && !Raises(s, cfg, r)
    ensures Dispatchable(s, r, s.sequences[r.sequenceId]) && s.sequences[r.sequenceId].reason in cfg
    ensures Process(s, cfg, r, tick) ==
            DispatchReminder(s, r, s.sequences[r.sequenceId], cfg[s.sequences[r.sequenceId].reason], tick)
  {
    PendingIsDispatchable(s, r);
  }

  lemma DispatchLogs(s: State, r: Reminder, q: Sequence, schedule: Schedule, tick: Tick)
    ensures DispatchReminder(s, r, q, schedule, tick).rounds == s.rounds + [Round(r.sequenceId, r.step, tick.at)]
  {
  }

  lemma ProcessKeepsInv(s: State, cfg: Config, r: Reminder, tick: Tick)
    requires Inv(s) && IsStored(s, r) && r.Due() && !Raises(s, cfg, r)
    ensures Inv(Process(s, cfg, r, tick))
    ensures Touches(s, Process(s, cfg, r, tick), r.sequenceId)
  {
    ProcessDispatches(s, cfg, r, tick);
    var q := s.sequences[r.sequenceId];
    DispatchKeeps(s, r, q, cfg[q.reason], tick, DispatchReminder(s, r, q, cfg[q.reason], tick));
    DispatchLogs(s, r, q, cfg[q.reason], tick);
    TouchKeepsInv(s, Process(s, cfg, r, tick), q.id);
  }

  lemma ProcessKeepsSnapshot(s: State, cfg: Config, due: seq<Reminder>, tick: Tick)
    requires Inv(s) && due != [] && Snapshot(s, due) && !Raises(s, cfg, due[0])
    ensures Snapshot(Process(s, cfg, due[0], tick), due[1..])
  {
    var s' := Process(s, cfg, due[0], tick);
    SnapshotHasDistinctSequences(s, due);
    ProcessKeepsInv(s, cfg, due[0], tick);
    forall i | 0 <= i < |due[1..]| ensures IsStored(s', due[1..][i]) {
      assert due[1..][i] == due[i + 1];
      assert Untouched(s, s', due[i + 1].sequenceId);
    }
  }

  lemma {:induction false} RunDueKeepsInv(s: State, cfg: Config, due: seq<Reminder>, ticks: seq<Tick>)
    requires Inv(s) && Snapshot(s, due) && |ticks| == |due|
    ensures Inv(RunDue(s, cfg, due, ticks))
    decreases |due|
  {
    if due != [] && !Raises(s, cfg, due[0]) {
      ProcessKeepsInv(s, cfg, due[0], ticks[0]);
      ProcessKeepsSnapshot(s, cfg, due, ticks[0]);
      RunDueKeepsInv(Process(s, cfg, due[0], ticks[0]), cfg, due[1..], ticks[1..]);
    }
  }

  function RoundsFor(due: seq<Reminder>, ticks: seq<Tick>): (r: seq<Round>)
    requires |ticks| == |due|
    ensures |r| == |due|
  {
    seq(|due|, i requires 0 <= i < |due| => Round(due[i].sequenceId, due[i].step, ticks[i].at))
  }

  ghost predicate AllConfigured(s: State, cfg: Config) {
    forall q :: q in s.sequences ==> s.sequences[q].reason in cfg
  }

  lemma ProcessLogs(s: State, cfg: Config, r: Reminder, tick: Tick)
    requires Inv(s) && IsStored(s, r) && r.Due() && !Raises(s, cfg, r)
    ensures Process(s, cfg, r, tick).rounds == s.rounds + [Round(r.sequenceId, r.step, tick.at)]
  {
    PendingIsDispatchable(s, r);
    ProcessDispatches(s, cfg, r, tick);
    DispatchLogs(s, r, s.sequences[r.sequenceId], cfg[s.sequences[r.sequenceId].reason], tick);
  }

  lemma ConfiguredStays(s: State, cfg: Config, r: Reminder, tick: Tick)
    requires Inv(s) && AllConfigured(s, cfg) && IsStored(s, r) && r.Due()
    ensures !Raises(s, cfg, r) && AllConfigured(Process(s, cfg, r, tick), cfg)
  {
    ProcessKeepsInv(s, cfg, r, tick);
    var s' := Process(s, cfg, r, tick);
    forall q | q in s'.sequences ensures s'.sequences[q].reason in cfg {
      assert q != r.sequenceId ==> Untouched(s, s', q);
    }
  }

  /** One iteration leaves everything ready for the next. */
  lemma TickStep(s: State, cfg: Config, due: seq<Reminder>, tick: Tick, s': State)
    requires Inv(s) && due != [] && Snapshot(s, due) && !Raises(s, cfg, due[0])
    requires s' == Process(s, cfg, due[0], tick)
    ensures Inv(s') && Snapshot(s', due[1..])
    ensures s'.rounds == s.rounds + [Round(due[0].sequenceId, due[0].step, tick.at)]
  {
    ProcessLogs(s, cfg, due[0], tick);
    ProcessKeepsInv(s, cfg, due[0], tick);
    ProcessKeepsSnapshot(s, cfg, due, tick);
  }

  /** How many of the due reminders come before the first whose reason has no schedule. */
  function Attemptable(s: State, cfg: Config, due: seq<Reminder>): (k: nat)
    ensures k <= |due| && (k < |due| ==> Raises(s, cfg, due[k]))
    ensures forall i :: 0 <= i < k ==> !Raises(s, cfg, due[i])
  {
    if due == [] || Raises(s, cfg, due[0]) then 0 else 1 + Attemptable(s, cfg, due[1..])
  }

  lemma {:induction false} SameAttemptable(s: State, s': State, cfg: Config, due: seq<Reminder>)
    requires forall i :: 0 <= i < |due| ==> (Raises(s, cfg, due[i]) <==> Raises(s', cfg, due[i]))
    ensures Attemptable(s, cfg, due) == Attemptable(s', cfg, due)
  {
    if due != [] && !Raises(s, cfg, due[0]) {
      SameAttemptable(s, s', cfg, due[1..]);
    }
  }

  lemma AttemptableNext(s: State, cfg: Config, due: seq<Reminder>, tick: Tick)
    requires Inv(s) && due != [] && Snapshot(s, due) && !Raises(s, cfg, due[0])
    ensures Attemptable(s, cfg, due) == 1 + Attemptable(Process(s, cfg, due[0], tick), cfg, due[1..])
  {
    var s' := Process(s, cfg, due[0], tick);
    ProcessKeepsInv(s, cfg, due[0], tick);
    SnapshotHasDistinctSequences(s, due);
    forall i | 0 <= i < |due[1..]| ensures Raises(s, cfg, due[1..][i]) <==> Raises(s', cfg, due[1..][i]) {
      assert due[1..][i] == due[i + 1] && Untouched(s, s', due[i + 1].sequenceId);
    }
    SameAttemptable(s, s', cfg, due[1..]);
  }

  /** The first k of the due reminders were attempted, and the rest stay due as they were. */
  ghost predicate StopsAt(s: State, due: seq<Reminder>, ticks: seq<Tick>, k: nat, after: State,
                          r: Outcome<seq<Reminder>>)
    requires |ticks| == |due| && k <= |due|
  {
    && after.rounds == s.rounds + RoundsFor(due[..k], ticks[..k])
    && (r.ScheduleNotFound? <==> k < |due|)
    && forall i :: k <= i < |due| ==> IsStored(after, due[i])
  }

  /**
   A tick attempts exactly the snapshot before the first reminder whose reason has no schedule,
   in order, once each. It raises iff there is such a reminder, and that one and all after it stay
   due, as they were.
   */
  lemma {:induction false} TickStopsAtMissingSchedule(s: State, cfg: Config, due: seq<Reminder>, ticks: seq<Tick>)
    requires Inv(s) && Snapshot(s, due) && |ticks| == |due|
    ensures StopsAt(s, due, ticks, Attemptable(s, cfg, due), RunDue(s, cfg, due, ticks), Processed(s, cfg, due, ticks))
    decreases |due|
  {
    if due != [] && !Raises(s, cfg, due[0]) {
      var s' := Process(s, cfg, due[0], ticks[0]);
      TickStep(s, cfg, due, ticks[0], s');
      AttemptableNext(s, cfg, due, ticks[0]);
      TickStopsAtMissingSchedule(s', cfg, due[1..], ticks[1..]);
      StopsLater(s, due, ticks, Attemptable(s, cfg, due), s', RunDue(s, cfg, due, ticks),
                 Processed(s', cfg, due[1..], ticks[1..]), Attempted(s, cfg, due[0], ticks[0]));
    } else {
      assert s.rounds + [] == s.rounds;
    }
  }

  lemma StopsLater(s: State, due: seq<Reminder>, ticks: seq<Tick>, k: nat, s': State, after: State,
                   r: Outcome<seq<Reminder>>, attempted: seq<Reminder>)
    requires |ticks| == |due| && 0 < k <= |due|
    requires s'.rounds == s.rounds + [Round(due[0].sequenceId, due[0].step, ticks[0].at)]
    requires StopsAt(s', due[1..], ticks[1..], k - 1, after, r)
    ensures StopsAt(s, due, ticks, k, after, Prefixed(attempted, r))
  {
    FirstAttempt(due, ticks, k, s.rounds, s'.rounds);
    assert forall i :: 1 <= i < |due| ==> due[i] == due[1..][i - 1];
  }

  lemma FirstAttempt(due: seq<Reminder>, ticks: seq<Tick>, k: nat, rounds: seq<Round>, next: seq<Round>)
    requires |ticks| == |due| && 0 < k <= |due|
    requires next == rounds + [Round(due[0].sequenceId, due[0].step, ticks[0].at)]
    ensures rounds + RoundsFor(due[..k], ticks[..k]) == next + RoundsFor(due[1..][..k - 1], ticks[1..][..k - 1])
  {
    assert due[..k][1..] == due[1..][..k - 1] && ticks[..k][1..] == ticks[1..][..k - 1];
    RoundsForCons(due[..k], ticks[..k]);
    Reassociate(rounds, [Round(due[0].sequenceId, due[0].step, ticks[0].at)],
                RoundsFor(due[1..][..k - 1], ticks[1..][..k - 1]));
  }

  /** When every reason is configured the tick attempts its whole snapshot, in order, once each. */
  lemma RunDueProcessesSnapshot(s: State, cfg: Config, due: seq<Reminder>, ticks: seq<Tick>)
    requires Inv(s) && AllConfigured(s, cfg) && Snapshot(s, due) && |ticks| == |due|
    ensures RunDue(s, cfg, due, ticks).rounds == s.rounds + RoundsFor(due, ticks)
  {
    TickStopsAtMissingSchedule(s, cfg, due, ticks);
    assert Attemptable(s, cfg, due) == |due|;
    assert due[..|due|] == due && ticks[..|due|] == ticks;
  }

  lemma RoundsForCons(due: seq<Reminder>, ticks: seq<Tick>)
    requires |ticks| == |due| > 0
    ensures RoundsFor(due, ticks) ==
            [Round(due[0].sequenceId, due[0].step, ticks[0].at)] + RoundsFor(due[1..], ticks[1..])
  {
  }

  lemma StopKeepsInv(s: State, sid: nat, status: SequenceStatus, pending: ReminderStatus)
    requires Inv(s) && !status.Active? && (pending.Dropped? || pending.Revoked?)
    ensures Inv(Stop(s, sid, status, pending))
    ensures Touches(s, Stop(s, sid, status, pending), sid) || Stop(s, sid, status, pending) == s
  {
    if sid in s.sequences && s.sequences[sid].status.Active? {
      assert SequenceInv(s, sid);
      CloseKeeps(s, s.sequences[sid], status, pending);
      TouchKeepsInv(s, Stop(s, sid, status, pending), sid);
    }
  }

  predicate IsNew(s: State, q: Sequence) {
    q.id == s.next && q.status.Active?
  }

  lemma OpenedBetween(s: State, q: Sequence)
    requires Inv(s) && IsNew(s, q)
    ensures Between(Opened(s, q), q, 0) && StepsOf(s.rounds, q.id) == []
  {
    NoRoundsYet(s.rounds, q.id);
    assert Pending(Opened(s, q), q.id) == {};
  }

  lemma FirstStepTouches(s: State, q: Sequence, schedule: Schedule)
    requires Inv(s) && IsNew(s, q)
    ensures var s' := ScheduleStep(Opened(s, q), q, schedule, 0);
            Keyed(s') && Touches(s, s', q.id) && SequenceInv(s', q.id) && s'.rounds == s.rounds
  {
    OpenedBetween(s, q);
    ScheduleStepKeeps(Opened(s, q), q, schedule, 0);
    var s' := ScheduleStep(Opened(s, q), q, schedule, 0);
    forall x | x != q.id ensures Untouched(s, s', x) {
      assert Untouched(Opened(s, q), s', x);
    }
  }

  lemma StartKeepsInv(s: State, cfg: Config, reason: string, targets: map<Channel, string>,
                      ref: Option<string>, baseTime: real)
    requires Inv(s)
    ensures Inv(Start(s, cfg, reason, targets, ref, baseTime))
  {
    if !HasActive(s, reason, ref) && reason in cfg {
      var q := Sequence(s.next, reason, targets, ref, Active, 0, baseTime);
      FirstStepTouches(s, q, cfg[reason]);
      var s' := ScheduleStep(Opened(s, q), q, cfg[reason], 0);
      forall x | x in s.sequences ensures !Rivals(s.sequences[x], s'.sequences[q.id]) {
        assert ref.Some? ==> !IsActiveFor(s, x, reason, ref.value);
      }
      TouchKeepsInv(s, s', q.id);
    }
  }

  lemma {:induction false} NoRoundsYet(rounds: seq<Round>, sid: nat)
    requires forall i :: 0 <= i < |rounds| ==> rounds[i].sequenceId != sid
    ensures StepsOf(rounds, sid) == []
  {
    if rounds != [] {
      NoRoundsYet(rounds[..|rounds| - 1], sid);
    }
  }

  // ----- runs -----

  datatype Call =
    | StartCall(cfg: Config, reason: string, targets: map<Channel, string>, ref: Option<string>, baseTime: real)
    | RunDueCall(cfg: Config, now: real, limit: nat, due: seq<Reminder>, ticks: seq<Tick>)
    | SuppressCall(sid: nat)
    | CancelCall(sid: nat)

  /** The worker works on what list_due returned; the dispatcher may do anything. */
  ghost predicate Possible(s: State, call: Call) {
    call.RunDueCall? ==> IsDueList(s, call.now, call.limit, call.due) && |call.ticks| == |call.due|
  }

  ghost function Result(s: State, call: Call): State
    requires Possible(s, call)
  {
    match call
    case StartCall(cfg, reason, targets, ref, baseTime) => Start(s, cfg, reason, targets, ref, baseTime)
    case RunDueCall(cfg, _, _, due, ticks) => RunDue(s, cfg, due, ticks)
    case SuppressCall(sid) => Suppress(s, sid)
    case CancelCall(sid) => Cancel(s, sid)
  }

  ghost predicate IsRun(tr: seq<State>, calls: seq<Call>) {
    && |tr| == |calls| + 1
    && tr[0] == EMPTY_STORE
    && forall i :: 0 <= i < |calls| ==> Possible(tr[i], calls[i]) && tr[i + 1] == Result(tr[i], calls[i])
  }

  lemma CallKeepsInv(s: State, call: Call)
    requires Inv(s) && Possible(s, call)
    ensures Inv(Result(s, call))
  {
    match call
    case StartCall(cfg, reason, targets, ref, baseTime) => StartKeepsInv(s, cfg, reason, targets, ref, baseTime);
    case RunDueCall(cfg, now, limit, due, ticks) => RunDueKeepsInv(s, cfg, due, ticks);
    case SuppressCall(sid) => StopKeepsInv(s, sid, Suppressed, Dropped);
    case CancelCall(sid) => StopKeepsInv(s, sid, Cancelled, Revoked);
  }

  /** The invariant holds after every call of every run. */
  lemma {:induction false} RunsKeepInv(tr: seq<State>, calls: seq<Call>, i: nat)
    requires IsRun(tr, calls) && i < |tr|
    ensures Inv(tr[i])
  {
    if i > 0 {
      RunsKeepInv(tr, calls, i - 1);
      CallKeepsInv(tr[i - 1], calls[i - 1]);
    }
  }

  // ----- what a tick returns -----

  lemma AttemptIsStored(s: State, cfg: Config, r: Reminder, tick: Tick)
    requires Inv(s) && AllConfigured(s, cfg) && IsStored(s, r) && r.Due()
    ensures var attempt := Attempted(s, cfg, r, tick);
            && |attempt| == 1 && attempt[0].id == r.id && attempt[0].sequenceId == r.sequenceId
            && IsStored(Process(s, cfg, r, tick), attempt[0])
  {
    ProcessDispatches(s, cfg, r, tick);
    var q := s.sequences[r.sequenceId];
  }

  /** A tick leaves sequences outside its snapshot alone. */
  lemma {:induction false} RunDueLeavesAbsent(s: State, cfg: Config, due: seq<Reminder>, ticks: seq<Tick>, sid: nat)
    requires Inv(s) && Snapshot(s, due) && |ticks| == |due|
    requires forall i :: 0 <= i < |due| ==> due[i].sequenceId != sid
    ensures Untouched(s, RunDue(s, cfg, due, ticks), sid)
    decreases |due|
  {
    if due != [] && !Raises(s, cfg, due[0]) {
      var s' := Process(s, cfg, due[0], ticks[0]);
      ProcessKeepsInv(s, cfg, due[0], ticks[0]);
      ProcessKeepsSnapshot(s, cfg, due, ticks[0]);
      assert Untouched(s, s', sid);
      RunDueLeavesAbsent(s', cfg, due[1..], ticks[1..], sid);
    }
  }

  /**
   When every reason is configured the tick answers with its whole snapshot, in order, each
   reminder as it is stored afterwards.
   */
  lemma {:induction false} TickReturnsWhatItStores(s: State, cfg: Config, due: seq<Reminder>, ticks: seq<Tick>)
    requires Inv(s) && AllConfigured(s, cfg) && Snapshot(s, due) && |ticks| == |due|
    ensures var r := Processed(s, cfg, due, ticks);
            && r.Done? && |r.value| == |due|
            && forall i :: 0 <= i < |due| ==>
                             r.value[i].id == due[i].id && IsStored(RunDue(s, cfg, due, ticks), r.value[i])
    decreases |due|
  {
    if due != [] {
      var first, s' := due[0], Process(s, cfg, due[0], ticks[0]);
      ConfiguredStays(s, cfg, first, ticks[0]);
      TickStep(s, cfg, due, ticks[0], s');
      AttemptIsStored(s, cfg, first, ticks[0]);
      SnapshotHasDistinctSequences(s, due);
      TickReturnsWhatItStores(s', cfg, due[1..], ticks[1..]);
      RunDueLeavesAbsent(s', cfg, due[1..], ticks[1..], first.sequenceId);
    }
  }

  // ----- nothing happens to a finished sequence -----

  ghost predicate Finished(s: State, sid: nat) {
    sid in s.sequences && !s.sequences[sid].status.Active?
  }

  /** After suppression, cancellation, escalation or completion a sequence, its reminders and
      its rounds never change again: nothing more is attempted. */
  lemma FinishedStaysFinished(s: State, call: Call, sid: nat)
    requires Inv(s) && Possible(s, call) && Finished(s, sid)
    ensures Untouched(s, Result(s, call), sid)
  {
    match call
    case StartCall(cfg, reason, targets, ref, baseTime) =>
    case RunDueCall(cfg, now, limit, due, ticks) =>
      SnapshotHasDistinctSequences(s, due);
      RunDueLeavesAbsent(s, cfg, due, ticks, sid);
    case SuppressCall(x) => StopKeepsInv(s, x, Suppressed, Dropped);
    case CancelCall(x) => StopKeepsInv(s, x, Cancelled, Revoked);
  }

  lemma FinishedNext(tr: seq<State>, calls: seq<Call>, i: nat)
    requires IsRun(tr, calls) && i < |calls|
    ensures forall sid :: Finished(tr[i], sid) ==> Untouched(tr[i], tr[i + 1], sid)
  {
    RunsKeepInv(tr, calls, i);
    forall sid | Finished(tr[i], sid) ensures Untouched(tr[i], tr[i + 1], sid) {
      FinishedStaysFinished(tr[i], calls[i], sid);
    }
  }

  lemma {:induction false} FinishedForTheRun(tr: seq<State>, calls: seq<Call>, i: nat, j: nat, sid: nat)
    requires IsRun(tr, calls) && i <= j < |tr| && Finished(tr[i], sid)
    ensures Finished(tr[j], sid) && Untouched(tr[i], tr[j], sid)
  {
    if i < j {
      FinishedForTheRun(tr, calls, i, j - 1, sid);
      FinishedNext(tr, calls, j - 1);
    }
  }
}
