/**
 Reminder sequences: the stored state and what each service call makes of it
 (app/services/nudge/service.py, app/services/nudge/persistence.py, app/services/nudge/models.py).

 Each call is one atomic step. Times are seconds; identifiers come from one counter.
 */
module Nudge {
  import opened Shared

  datatype StepConfig = StepConfig(offset: real, channels: seq<Channel>, template: string, escalate: bool)

  datatype Schedule = Schedule(steps: seq<StepConfig>, maxAttempts: int)

  /** The schedule configured for each reason at the time of a call. */
  type Config = map<string, Schedule>

  datatype SequenceStatus = Active | Suppressed | Completed | Escalated | Cancelled

  datatype Sequence = Sequence(
    id: nat, reason: string, targets: map<Channel, string>, targetRef: Option<string>,
    status: SequenceStatus, currentStep: nat, baseTime: real)

  datatype ReminderStatus = Scheduled | Retrying | Sent | Failed | Dropped | Revoked

  datatype Reminder = Reminder(
    id: nat, sequenceId: nat, step: nat, scheduledFor: real, channels: seq<Channel>,
    template: string, escalate: bool, status: ReminderStatus, attempts: nat)
  {
    predicate Due() {
      status.Scheduled? || status.Retrying?
    }
  }

  /** One processing of one reminder by the worker. */
  datatype Round = Round(sequenceId: nat, step: nat, at: real)

  datatype State = State(
    sequences: map<nat, Sequence>, reminders: map<nat, Reminder>, next: nat, rounds: seq<Round>)

  /** The dictionaries are keyed by the identifiers of what they hold. */
  ghost predicate Keyed(s: State) {
    && (forall q :: q in s.sequences ==> s.sequences[q].id == q && q < s.next)
    && (forall r :: r in s.reminders ==> s.reminders[r].id == r && r < s.next)
  }

  const EMPTY_STORE := State(map[], map[], 0, [])

  /** What the outside world does during one round: does the send on the i-th channel succeed,
      the clock, and the backoff delay drawn for a retry. */
  datatype Tick = Tick(ok: nat -> bool, at: real, delay: real)

  // ----- internals -----

  function NewReminder(s: State, q: Sequence, schedule: Schedule, i: nat): Reminder
    requires i < |schedule.steps|
  {
    var step := schedule.steps[i];
    Reminder(s.next, q.id, i, q.baseTime + step.offset, step.channels, step.template, step.escalate, Scheduled, 0)
  }

  function ScheduleStep(s: State, q: Sequence, schedule: Schedule, i: nat): State {
    if i >= |schedule.steps| then
      s.(sequences := s.sequences[q.id := q.(status := Completed)])
    else
      s.(reminders := s.reminders[s.next := NewReminder(s, q, schedule, i)],
         sequences := s.sequences[q.id := q.(currentStep := i)],
         next := s.next + 1)
  }

  function Pending(s: State, sid: nat): set<nat> {
    set r | r in s.reminders && s.reminders[r].sequenceId == sid && s.reminders[r].Due()
  }

  function CancelPending(s: State, sid: nat, status: ReminderStatus): State {
    s.(reminders := map r | r in s.reminders ::
         if r in Pending(s, sid) then s.reminders[r].(status := status) else s.reminders[r])
  }

  function Close(s: State, q: Sequence, status: SequenceStatus, pending: ReminderStatus): State {
    CancelPending(s.(sequences := s.sequences[q.id := q.(status := status)]), q.id, pending)
  }

  /** Is channel i of the reminder one the dispatcher is called for? */
  predicate Contacts(r: Reminder, q: Sequence, i: nat)
    requires i < |r.channels|
  {
    r.channels[i] in q.targets && q.targets[r.channels[i]] != ""
  }

  /** A round fails only if a send was tried and none succeeded. */
  predicate RoundFails(r: Reminder, q: Sequence, ok: nat -> bool) {
    && (exists i: nat :: i < |r.channels| && Contacts(r, q, i) && !ok(i))
    && (forall i: nat :: i < |r.channels| && Contacts(r, q, i) ==> !ok(i))
  }

  function SaveReminder(s: State, r: Reminder): State {
    s.(reminders := s.reminders[r.id := r])
  }

  /** The store right after a round of r is logged and the reminder saved as r'. */
  function Logged(s: State, r: Reminder, r': Reminder, tick: Tick): State {
    SaveReminder(s.(rounds := s.rounds + [Round(r.sequenceId, r.step, tick.at)]), r')
  }

  function DispatchReminder(s: State, r: Reminder, q: Sequence, schedule: Schedule, tick: Tick): State {
    if RoundFails(r, q, tick.ok) then
      HandleFailure(s, r, q, schedule, tick)
    else
      var s' := Logged(s, r, r.(status := Sent), tick);
      if r.escalate then Close(s', q, Escalated, Revoked) else ScheduleStep(s', q, schedule, r.step + 1)
  }

  function Retried(r: Reminder, tick: Tick): Reminder {
    r.(attempts := r.attempts + 1, status := Retrying, scheduledFor := tick.at + tick.delay)
  }

  function GivenUp(r: Reminder): Reminder {
    r.(attempts := r.attempts + 1, status := Failed)
  }

  function HandleFailure(s: State, r: Reminder, q: Sequence, schedule: Schedule, tick: Tick): State {
    if r.attempts + 1 < schedule.maxAttempts then Logged(s, r, Retried(r, tick), tick)
    else ScheduleStep(Logged(s, r, GivenUp(r), tick), q, schedule, r.step + 1)
  }

  /** The reminder as a round leaves it. */
  function RoundResult(r: Reminder, q: Sequence, schedule: Schedule, tick: Tick): Reminder {
    if !RoundFails(r, q, tick.ok) then r.(status := Sent)
    else if r.attempts + 1 < schedule.maxAttempts then Retried(r, tick)
    else GivenUp(r)
  }

  // ----- calls -----

  datatype Outcome<+T> = Done(value: T) | ScheduleNotFound | SequenceNotFound

  predicate IsActiveFor(s: State, sid: nat, reason: string, ref: string) {
    && sid in s.sequences
    && s.sequences[sid].status.Active?
    && s.sequences[sid].reason == reason && s.sequences[sid].targetRef == Some(ref)
  }

  ghost predicate HasActive(s: State, reason: string, ref: Option<string>) {
    ref.Some? && exists sid :: IsActiveFor(s, sid, reason, ref.value)
  }

  /** The store with one more sequence and no reminder for it yet. */
  function Opened(s: State, q: Sequence): State {
    s.(sequences := s.sequences[q.id := q], next := s.next + 1)
  }

  ghost function Start(s: State, cfg: Config, reason: string, targets: map<Channel, string>,
                       ref: Option<string>, baseTime: real): State
  {
    if HasActive(s, reason, ref) || reason !in cfg then s
    else
      var q := Sequence(s.next, reason, targets, ref, Active, 0, baseTime);
      ScheduleStep(Opened(s, q), q, cfg[reason], 0)
  }

  /** due is a possible answer of list_due: the earliest limit due reminders, sorted. */
  ghost predicate IsDueList(s: State, now: real, limit: nat, due: seq<Reminder>) {
    && (forall i :: 0 <= i < |due| ==> IsDueNow(s, now, due[i]))
    && (forall i, j :: 0 <= i < j < |due| ==> due[i].id != due[j].id && due[i].scheduledFor <= due[j].scheduledFor)
    && |due| <= limit
    && (|due| < limit ==> forall r :: r in s.reminders && IsDueNow(s, now, s.reminders[r]) ==> s.reminders[r] in due)
    && (forall r :: r in s.reminders && IsDueNow(s, now, s.reminders[r]) && s.reminders[r] !in due ==>
                      forall i :: 0 <= i < |due| ==> due[i].scheduledFor <= s.reminders[r].scheduledFor)
  }

  predicate IsDueNow(s: State, now: real, r: Reminder) {
    r.id in s.reminders && s.reminders[r.id] == r && r.Due() && r.scheduledFor <= now
  }

  /** The worker finds no schedule for the reminder's sequence and raises. */
  predicate Raises(s: State, cfg: Config, r: Reminder) {
    && r.sequenceId in s.sequences && s.sequences[r.sequenceId].status.Active?
    && s.sequences[r.sequenceId].reason !in cfg
  }

  /** One iteration of the worker's loop over its snapshot. */
  function Process(s: State, cfg: Config, r: Reminder, tick: Tick): State {
    if r.sequenceId !in s.sequences || !s.sequences[r.sequenceId].status.Active? then
      SaveReminder(s, r.(status := Dropped))
    else
      var q := s.sequences[r.sequenceId];
      if q.reason !in cfg then s else DispatchReminder(s, r, q, cfg[q.reason], tick)
  }

  function RunDue(s: State, cfg: Config, due: seq<Reminder>, ticks: seq<Tick>): State
    requires |ticks| == |due|
    decreases |due|
  {
    if due == [] || Raises(s, cfg, due[0]) then s
    else RunDue(Process(s, cfg, due[0], ticks[0]), cfg, due[1..], ticks[1..])
  }

  /** What the tick returns: the attempted reminders as their rounds left them, or the missing schedule. */
  function Processed(s: State, cfg: Config, due: seq<Reminder>, ticks: seq<Tick>): Outcome<seq<Reminder>>
    requires |ticks| == |due|
    decreases |due|
  {
    if due == [] then Done([])
    else if Raises(s, cfg, due[0]) then ScheduleNotFound
    else
      Prefixed(Attempted(s, cfg, due[0], ticks[0]),
               Processed(Process(s, cfg, due[0], ticks[0]), cfg, due[1..], ticks[1..]))
  }

  function Prefixed(attempted: seq<Reminder>, r: Outcome<seq<Reminder>>): Outcome<seq<Reminder>> {
    if r.Done? then Done(attempted + r.value) else r
  }

  lemma PrefixedLaws(a: seq<Reminder>, b: seq<Reminder>, r: Outcome<seq<Reminder>>)
    ensures Prefixed([], r) == r && Prefixed(a, Done([])) == Done(a)
    ensures Prefixed(a, Prefixed(b, r)) == Prefixed(a + b, r)
  {
    if r.Done? {
      assert [] + r.value == r.value;
      assert a + (b + r.value) == (a + b) + r.value;
    }
    assert a + [] == a;
  }

  /** The attempt of one iteration; a reminder of a finished sequence is not attempted. */
  function Attempted(s: State, cfg: Config, r: Reminder, tick: Tick): seq<Reminder> {
    if r.sequenceId !in s.sequences || !s.sequences[r.sequenceId].status.Active? || Raises(s, cfg, r) then []
    else [RoundResult(r, s.sequences[r.sequenceId], cfg[s.sequences[r.sequenceId].reason], tick)]
  }

  /** suppress and cancel, which differ in the two statuses they write. */
  function Stop(s: State, sid: nat, status: SequenceStatus, pending: ReminderStatus): State {
    if sid !in s.sequences || !s.sequences[sid].status.Active? then s
    else Close(s, s.sequences[sid], status, pending)
  }

  function Suppress(s: State, sid: nat): State {
    Stop(s, sid, Suppressed, Dropped)
  }

  function Cancel(s: State, sid: nat): State {
    Stop(s, sid, Cancelled, Revoked)
  }
}
