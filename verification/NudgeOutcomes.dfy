/**
 What a worker round does with a reminder and its sequence, told by which of the contacted channels
 answered; and over runs, which sequences escalate and what reminders carry.
 */
module NudgeOutcomes {
  import opened Shared
  import opened Nudge
  import opened NudgeInvariant
  import opened NudgeRuns
  import opened NudgeTermination

  /** Some channel of the reminder has an address in the sequence's targets and accepted the message. */
  predicate Delivered(r: Reminder, q: Sequence, tick: Tick) {
    exists i: nat :: i < |r.channels| && r.channels[i] in q.targets && q.targets[r.channels[i]] != "" && tick.ok(i)
  }

  /** Some channel of the reminder has an address. */
  predicate Reachable(r: Reminder, q: Sequence) {
    exists i: nat :: i < |r.channels| && r.channels[i] in q.targets && q.targets[r.channels[i]] != ""
  }

  /** The reminder for step i as it is created. */
  function StepReminder(id: nat, q: Sequence, steps: seq<StepConfig>, i: nat): Reminder
    requires i < |steps|
  {
    Reminder(id, q.id, i, q.baseTime + steps[i].offset, steps[i].channels, steps[i].template, steps[i].escalate,
             Scheduled, 0)
  }

  /** From s to s' a round of r was logged, r became after, its sequence became q', and made is
      the new reminder, if any. */
  predicate RoundMade(s: State, s': State, r: Reminder, tick: Tick, after: Reminder, q': Sequence,
                      made: Option<Reminder>) {
    && s'.rounds == s.rounds + [Round(r.sequenceId, r.step, tick.at)]
    && s'.sequences == s.sequences[r.sequenceId := q']
    && s'.reminders == (if made.Some? then s.reminders[r.id := after][s.next := made.value]
                        else s.reminders[r.id := after])
    && s'.next == if made.Some? then s.next + 1 else s.next
  }

  /** The sequence goes on to step i, or is completed when there is none. */
  predicate MovesOn(s: State, s': State, r: Reminder, tick: Tick, after: Reminder, q: Sequence,
                    steps: seq<StepConfig>, i: nat) {
    if i < |steps| then RoundMade(s, s', r, tick, after, q.(currentStep := i), Some(StepReminder(s.next, q, steps, i)))
    else RoundMade(s, s', r, tick, after, q.(status := Completed), None)
  }

  /** A reminder under way, with its sequence and schedule. */
  ghost predicate UnderWay(s: State, cfg: Config, r: Reminder, q: Sequence, schedule: Schedule) {
    && Inv(s) && IsStored(s, r) && r.Due() && r.sequenceId in s.sequences && s.sequences[r.sequenceId] == q
    && q.reason in cfg && cfg[q.reason] == schedule
  }

  lemma NothingToClose(s: State, q: Sequence, status: SequenceStatus, pending: ReminderStatus)
    requires Pending(s, q.id) == {}
    ensures Close(s, q, status, pending) == s.(sequences := s.sequences[q.id := q.(status := status)])
  {
    var s0 := s.(sequences := s.sequences[q.id := q.(status := status)]);
    assert Pending(s0, q.id) == Pending(s, q.id);
    assert CancelPending(s0, q.id, pending).reminders == s0.reminders;
  }

  /**
   A round whose message some contacted channel accepted, or that had no channel to contact, sends
   its reminder: an escalating one ends the sequence as escalated, any other moves it on.
   */
  lemma SentRound(s: State, cfg: Config, r: Reminder, q: Sequence, schedule: Schedule, tick: Tick, s': State)
    requires UnderWay(s, cfg, r, q, schedule) && s' == Process(s, cfg, r, tick)
    requires Delivered(r, q, tick) || !Reachable(r, q)
    ensures if r.escalate then RoundMade(s, s', r, tick, r.(status := Sent), q.(status := Escalated), None)
            else MovesOn(s, s', r, tick, r.(status := Sent), q, schedule.steps, r.step + 1)
  {
    PendingIsDispatchable(s, r);
    FailsIff(r, q, tick);
    var after := r.(status := Sent);
    if r.escalate {
      LoggedBetween(s, r, q, after, tick);
      NothingToClose(Logged(s, r, after, tick), q, Escalated, Revoked);
    } else {
      MovesOnAfter(s, r, after, q, schedule, tick, s');
    }
  }

  lemma FailsIff(r: Reminder, q: Sequence, tick: Tick)
    ensures RoundFails(r, q, tick.ok) <==> !Delivered(r, q, tick) && Reachable(r, q)
  {
    if Reachable(r, q) {
      var i: nat :| i < |r.channels| && r.channels[i] in q.targets && q.targets[r.channels[i]] != "";
      assert Contacts(r, q, i);
    }
  }

  lemma MovesOnAfter(s: State, r: Reminder, after: Reminder, q: Sequence, schedule: Schedule, tick: Tick, s': State)
    requires r.sequenceId == q.id && after.id == r.id
    requires s' == ScheduleStep(Logged(s, r, after, tick), q, schedule, r.step + 1)
    ensures MovesOn(s, s', r, tick, after, q, schedule.steps, r.step + 1)
  {
  }

  lemma RetriedAfter(s: State, r: Reminder, q: Sequence, tick: Tick, s': State)
    requires r.sequenceId == q.id && q.id in s.sequences && s.sequences[q.id] == q
    requires s' == Logged(s, r, Retried(r, tick), tick)
    ensures RoundMade(s, s', r, tick,
                      r.(attempts := r.attempts + 1, status := Retrying, scheduledFor := tick.at + tick.delay),
                      q, None)
  {
    assert s.sequences == s.sequences[q.id := q];
  }

  /** A round that contacted someone and reached no one is retried while attempts remain, and then
      gives its reminder up and moves the sequence on. */
  lemma UnsentRound(s: State, cfg: Config, r: Reminder, q: Sequence, schedule: Schedule, tick: Tick, s': State)
    requires UnderWay(s, cfg, r, q, schedule) && s' == Process(s, cfg, r, tick)
    requires !Delivered(r, q, tick) && Reachable(r, q)
    ensures if r.attempts + 1 < schedule.maxAttempts
            then RoundMade(s, s', r, tick,
                           r.(attempts := r.attempts + 1, status := Retrying, scheduledFor := tick.at + tick.delay),
                           q, None)
            else MovesOn(s, s', r, tick, r.(attempts := r.attempts + 1, status := Failed), q, schedule.steps,
                         r.step + 1)
  {
    PendingIsDispatchable(s, r);
    FailsIff(r, q, tick);
    if r.attempts + 1 < schedule.maxAttempts {
      RetriedAfter(s, r, q, tick, s');
    } else {
      MovesOnAfter(s, r, GivenUp(r), q, schedule, tick, s');
    }
  }

  /** After any round exactly the reminder under retry or the one just made is pending. */
  lemma PendingAfterRound(s: State, cfg: Config, r: Reminder, q: Sequence, schedule: Schedule, tick: Tick,
                          after: Reminder, q': Sequence, made: Option<Reminder>, s': State)
    requires UnderWay(s, cfg, r, q, schedule) && RoundMade(s, s', r, tick, after, q', made)
    requires after.id == r.id && after.sequenceId == q.id
    requires made.Some? ==> made.value.Due() && made.value.sequenceId == q.id
    ensures Pending(s', q.id) == (if after.Due() then {r.id} else {}) + (if made.Some? then {s.next} else {})
  {
    PendingIsDispatchable(s, r);
    SoleReminder(s, r, q);
    assert r.id in s.reminders && r.id < s.next;
    forall x ensures x in Pending(s', q.id) <==> (x == r.id && after.Due()) || (made.Some? && x == s.next) {
      assert x in Pending(s, q.id) <==> x == r.id;
    }
  }

  // ----- over runs: who escalates -----

  /** An escalating reminder of the sequence was sent. */
  ghost predicate EscalationSent(s: State, sid: nat) {
    exists r :: r in s.reminders && SentEscalation(s.reminders[r], sid)
  }

  predicate SentEscalation(r: Reminder, sid: nat) {
    r.sequenceId == sid && r.status.Sent? && r.escalate
  }

  ghost predicate EscalatedRightly(s: State, sid: nat) {
    sid in s.sequences && (s.sequences[sid].status.Escalated? <==> EscalationSent(s, sid))
  }

  ghost predicate EscalatesRightly(s: State) {
    forall sid :: sid in s.sequences ==> EscalatedRightly(s, sid)
  }

  lemma TouchKeepsEscalation(s: State, s': State, sid: nat)
    requires EscalatesRightly(s) && Touches(s, s', sid) && EscalatedRightly(s', sid)
    ensures EscalatesRightly(s')
  {
    forall x | x in s'.sequences ensures EscalatedRightly(s', x) {
      if x != sid {
        assert Untouched(s, s', x) && EscalatedRightly(s, x);
      }
    }
  }

  /** A round made of an active sequence's reminder keeps this. */
  lemma RoundEscalates(s: State, s': State, r: Reminder, tick: Tick, after: Reminder, q: Sequence, q': Sequence,
                       made: Option<Reminder>)
    requires Inv(s) && IsStored(s, r) && r.sequenceId == q.id && EscalatedRightly(s, q.id)
    requires s.sequences[q.id] == q && q.status.Active?
    requires RoundMade(s, s', r, tick, after, q', made)
    requires after.sequenceId == q.id && after.escalate == r.escalate
    requires made.Some? ==> !made.value.status.Sent?
    requires q'.status.Escalated? <==> after.status.Sent? && r.escalate
    ensures EscalatedRightly(s', q.id)
  {
    assert !EscalationSent(s, q.id);
    assert r.id < s.next;
    if q'.status.Escalated? {
      assert SentEscalation(s'.reminders[r.id], q.id);
    } else {
      forall x | x in s'.reminders ensures !SentEscalation(s'.reminders[x], q.id) {
      }
    }
  }

  lemma ProcessEscalates(s: State, cfg: Config, r: Reminder, tick: Tick)
    requires Inv(s) && EscalatesRightly(s) && IsStored(s, r) && r.Due() && !Raises(s, cfg, r)
    ensures EscalatesRightly(Process(s, cfg, r, tick))
  {
    var s' := Process(s, cfg, r, tick);
    PendingIsDispatchable(s, r);
    ProcessKeepsInv(s, cfg, r, tick);
    var q := s.sequences[r.sequenceId];
    var schedule := cfg[q.reason];
    if Delivered(r, q, tick) || !Reachable(r, q) {
      SentRound(s, cfg, r, q, schedule, tick, s');
      SentEscalates(s, s', r, tick, q, schedule);
    } else {
      UnsentRound(s, cfg, r, q, schedule, tick, s');
      UnsentEscalates(s, s', r, tick, q, schedule);
    }
    TouchKeepsEscalation(s, s', q.id);
  }

  lemma SentEscalates(s: State, s': State, r: Reminder, tick: Tick, q: Sequence, schedule: Schedule)
    requires Inv(s) && IsStored(s, r) && r.sequenceId == q.id && EscalatedRightly(s, q.id)
    requires s.sequences[q.id] == q && q.status.Active?
    requires if r.escalate then RoundMade(s, s', r, tick, r.(status := Sent), q.(status := Escalated), None)
             else MovesOn(s, s', r, tick, r.(status := Sent), q, schedule.steps, r.step + 1)
    ensures EscalatedRightly(s', q.id)
  {
    var after := r.(status := Sent);
    if r.escalate {
      RoundEscalates(s, s', r, tick, after, q, q.(status := Escalated), None);
    } else {
      MovingOnEscalates(s, s', r, tick, after, q, schedule.steps, r.step + 1);
    }
  }

  lemma MovingOnEscalates(s: State, s': State, r: Reminder, tick: Tick, after: Reminder, q: Sequence,
                          steps: seq<StepConfig>, i: nat)
    requires Inv(s) && IsStored(s, r) && r.sequenceId == q.id && EscalatedRightly(s, q.id)
    requires s.sequences[q.id] == q && q.status.Active?
    requires MovesOn(s, s', r, tick, after, q, steps, i)
    requires after.sequenceId == q.id && after.escalate == r.escalate && !(after.status.Sent? && r.escalate)
    ensures EscalatedRightly(s', q.id)
  {
    if i < |steps| {
      RoundEscalates(s, s', r, tick, after, q, q.(currentStep := i), Some(StepReminder(s.next, q, steps, i)));
    } else {
      RoundEscalates(s, s', r, tick, after, q, q.(status := Completed), None);
    }
  }

  lemma UnsentEscalates(s: State, s': State, r: Reminder, tick: Tick, q: Sequence, schedule: Schedule)
    requires Inv(s) && IsStored(s, r) && r.sequenceId == q.id && EscalatedRightly(s, q.id)
    requires s.sequences[q.id] == q && q.status.Active?
    requires if r.attempts + 1 < schedule.maxAttempts
             then RoundMade(s, s', r, tick,
                            r.(attempts := r.attempts + 1, status := Retrying, scheduledFor := tick.at + tick.delay),
                            q, None)
             else MovesOn(s, s', r, tick, r.(attempts := r.attempts + 1, status := Failed), q, schedule.steps,
                          r.step + 1)
    ensures EscalatedRightly(s', q.id)
  {
    if r.attempts + 1 < schedule.maxAttempts {
      var after := r.(attempts := r.attempts + 1, status := Retrying, scheduledFor := tick.at + tick.delay);
      RoundEscalates(s, s', r, tick, after, q, q, None);
    } else {
      var after := r.(attempts := r.attempts + 1, status := Failed);
      MovingOnEscalates(s, s', r, tick, after, q, schedule.steps, r.step + 1);
    }
  }

  lemma {:induction false} RunDueEscalates(s: State, cfg: Config, due: seq<Reminder>, ticks: seq<Tick>)
    requires Inv(s) && EscalatesRightly(s) && Snapshot(s, due) && |ticks| == |due|
    ensures EscalatesRightly(RunDue(s, cfg, due, ticks))
    decreases |due|
  {
    if due != [] && !Raises(s, cfg, due[0]) {
      ProcessEscalates(s, cfg, due[0], ticks[0]);
      ProcessKeepsInv(s, cfg, due[0], ticks[0]);
      ProcessKeepsSnapshot(s, cfg, due, ticks[0]);
      RunDueEscalates(Process(s, cfg, due[0], ticks[0]), cfg, due[1..], ticks[1..]);
    }
  }

  lemma StartEscalates(s: State, cfg: Config, reason: string, targets: map<Channel, string>, ref: Option<string>,
                       baseTime: real)
    requires Inv(s) && EscalatesRightly(s)
    ensures EscalatesRightly(Start(s, cfg, reason, targets, ref, baseTime))
  {
    if !HasActive(s, reason, ref) && reason in cfg {
      var q := Sequence(s.next, reason, targets, ref, Active, 0, baseTime);
      var s' := ScheduleStep(Opened(s, q), q, cfg[reason], 0);
      FirstStepTouches(s, q, cfg[reason]);
      assert EscalatedRightly(s', q.id);
      TouchKeepsEscalation(s, s', q.id);
    }
  }

  lemma StopEscalates(s: State, sid: nat, status: SequenceStatus, pending: ReminderStatus)
    requires Inv(s) && EscalatesRightly(s) && (status.Suppressed? || status.Cancelled?)
    requires pending.Dropped? || pending.Revoked?
    ensures EscalatesRightly(Stop(s, sid, status, pending))
  {
    if sid in s.sequences && s.sequences[sid].status.Active? {
      var s' := Stop(s, sid, status, pending);
      StopKeepsInv(s, sid, status, pending);
      assert EscalatedRightly(s, sid);
      forall x | x in s'.reminders ensures !SentEscalation(s'.reminders[x], sid) {
        assert !SentEscalation(s.reminders[x], sid);
      }
      TouchKeepsEscalation(s, s', sid);
    }
  }

  lemma CallEscalates(s: State, call: Call)
    requires Inv(s) && EscalatesRightly(s) && Possible(s, call)
    ensures EscalatesRightly(Result(s, call))
  {
    match call
    case StartCall(cfg, reason, targets, ref, baseTime) => StartEscalates(s, cfg, reason, targets, ref, baseTime);
    case RunDueCall(cfg, now, limit, due, ticks) => RunDueEscalates(s, cfg, due, ticks);
    case SuppressCall(sid) => StopEscalates(s, sid, Suppressed, Dropped);
    case CancelCall(sid) => StopEscalates(s, sid, Cancelled, Revoked);
  }

  /** In every run, however schedules are edited, a sequence is escalated iff a reminder of it that
      escalates was sent. */
  lemma EscalatedIff(tr: seq<State>, calls: seq<Call>, i: nat, sid: nat)
    requires IsRun(tr, calls) && i < |tr| && sid in tr[i].sequences
    ensures tr[i].sequences[sid].status.Escalated? <==> EscalationSent(tr[i], sid)
  {
    RunsEscalate(tr, calls, i);
    assert EscalatedRightly(tr[i], sid);
  }

  lemma {:induction false} RunsEscalate(tr: seq<State>, calls: seq<Call>, i: nat)
    requires IsRun(tr, calls) && i < |tr|
    ensures EscalatesRightly(tr[i])
  {
    if i > 0 {
      RunsEscalate(tr, calls, i - 1);
      RunsKeepInv(tr, calls, i - 1);
      CallEscalates(tr[i - 1], calls[i - 1]);
    }
  }

  // ----- over runs: what reminders carry -----

  /** The reminder is for a step of its sequence's schedule and carries what is configured there. */
  predicate CarriesStep(s: State, cfg: Config, r: Reminder) {
    && r.sequenceId in s.sequences && s.sequences[r.sequenceId].reason in cfg
    && var steps := cfg[s.sequences[r.sequenceId].reason].steps;
    && r.step < |steps|
    && r.channels == steps[r.step].channels && r.template == steps[r.step].template
    && r.escalate == steps[r.step].escalate
  }

  predicate AllCarrySteps(s: State, cfg: Config) {
    && (forall sid :: sid in s.sequences ==> s.sequences[sid].reason in cfg)
    && (forall r :: r in s.reminders ==> CarriesStep(s, cfg, s.reminders[r]))
  }

  /** Reminders change no more than status, attempts and time, and new ones carry their step. */
  predicate RemindersKept(s: State, s': State, cfg: Config) {
    forall r :: r in s'.reminders ==>
                  if r in s.reminders then SameContent(s.reminders[r], s'.reminders[r])
                  else CarriesStep(s', cfg, s'.reminders[r])
  }

  predicate SameContent(a: Reminder, b: Reminder) {
    && a.sequenceId == b.sequenceId && a.step == b.step && a.channels == b.channels && a.template == b.template
    && a.escalate == b.escalate
  }

  lemma TouchKeepsCarried(s: State, s': State, cfg: Config, sid: nat)
    requires AllCarrySteps(s, cfg) && Touches(s, s', sid) && RemindersKept(s, s', cfg)
    requires s'.sequences[sid].reason in cfg
    ensures AllCarrySteps(s', cfg)
  {
    forall x | x in s.sequences || x in s'.sequences
      ensures x in s.sequences ==> x in s'.sequences && s'.sequences[x].reason == s.sequences[x].reason
      ensures x in s'.sequences ==> s'.sequences[x].reason in cfg
    {
      assert x != sid ==> Untouched(s, s', x);
    }
    forall r | r in s'.reminders ensures CarriesStep(s', cfg, s'.reminders[r]) {
      assert r in s.reminders ==> CarriesStep(s, cfg, s.reminders[r]);
    }
  }

  lemma RoundCarries(s: State, s': State, cfg: Config, r: Reminder, tick: Tick, after: Reminder, q': Sequence,
                     made: Option<Reminder>)
    requires Inv(s) && AllCarrySteps(s, cfg) && IsStored(s, r) && Touches(s, s', r.sequenceId)
    requires RoundMade(s, s', r, tick, after, q', made) && SameContent(r, after)
    requires made.Some? ==> CarriesStep(s', cfg, made.value)
    ensures AllCarrySteps(s', cfg)
  {
    TouchKeepsCarried(s, s', cfg, r.sequenceId);
  }

  lemma MovingOnCarries(s: State, s': State, cfg: Config, r: Reminder, tick: Tick, after: Reminder, q: Sequence,
                        i: nat)
    requires Inv(s) && AllCarrySteps(s, cfg) && IsStored(s, r) && Touches(s, s', q.id) && r.sequenceId == q.id
    requires q.id in s.sequences && s.sequences[q.id] == q
    requires MovesOn(s, s', r, tick, after, q, cfg[q.reason].steps, i) && SameContent(r, after)
    ensures AllCarrySteps(s', cfg)
  {
    var steps := cfg[q.reason].steps;
    if i < |steps| {
      RoundCarries(s, s', cfg, r, tick, after, q.(currentStep := i), Some(StepReminder(s.next, q, steps, i)));
    } else {
      RoundCarries(s, s', cfg, r, tick, after, q.(status := Completed), None);
    }
  }

  lemma ProcessCarries(s: State, cfg: Config, r: Reminder, tick: Tick)
    requires Inv(s) && AllCarrySteps(s, cfg) && IsStored(s, r) && r.Due()
    ensures !Raises(s, cfg, r) && AllCarrySteps(Process(s, cfg, r, tick), cfg)
  {
    var s' := Process(s, cfg, r, tick);
    PendingIsDispatchable(s, r);
    ProcessKeepsInv(s, cfg, r, tick);
    var q := s.sequences[r.sequenceId];
    var schedule := cfg[q.reason];
    if Delivered(r, q, tick) || !Reachable(r, q) {
      SentRound(s, cfg, r, q, schedule, tick, s');
      var after := r.(status := Sent);
      if r.escalate {
        RoundCarries(s, s', cfg, r, tick, after, q.(status := Escalated), None);
      } else {
        MovingOnCarries(s, s', cfg, r, tick, after, q, r.step + 1);
      }
    } else {
      UnsentRound(s, cfg, r, q, schedule, tick, s');
      if r.attempts + 1 < schedule.maxAttempts {
        var after := r.(attempts := r.attempts + 1, status := Retrying, scheduledFor := tick.at + tick.delay);
        RoundCarries(s, s', cfg, r, tick, after, q, None);
      } else {
        MovingOnCarries(s, s', cfg, r, tick, r.(attempts := r.attempts + 1, status := Failed), q, r.step + 1);
      }
    }
  }

  lemma {:induction false} RunDueCarries(s: State, cfg: Config, due: seq<Reminder>, ticks: seq<Tick>)
    requires Inv(s) && AllCarrySteps(s, cfg) && Snapshot(s, due) && |ticks| == |due|
    ensures AllCarrySteps(RunDue(s, cfg, due, ticks), cfg)
    decreases |due|
  {
    if due != [] {
      ProcessCarries(s, cfg, due[0], ticks[0]);
      ProcessKeepsInv(s, cfg, due[0], ticks[0]);
      ProcessKeepsSnapshot(s, cfg, due, ticks[0]);
      RunDueCarries(Process(s, cfg, due[0], ticks[0]), cfg, due[1..], ticks[1..]);
    }
  }

  lemma StartCarries(s: State, cfg: Config, reason: string, targets: map<Channel, string>, ref: Option<string>,
                     baseTime: real)
    requires Inv(s) && AllCarrySteps(s, cfg)
    ensures AllCarrySteps(Start(s, cfg, reason, targets, ref, baseTime), cfg)
  {
    if !HasActive(s, reason, ref) && reason in cfg {
      var q := Sequence(s.next, reason, targets, ref, Active, 0, baseTime);
      FirstStepTouches(s, q, cfg[reason]);
      TouchKeepsCarried(s, ScheduleStep(Opened(s, q), q, cfg[reason], 0), cfg, q.id);
    }
  }

  lemma StopKeepsReminders(s: State, cfg: Config, sid: nat, status: SequenceStatus, pending: ReminderStatus, s': State)
    requires s' == Stop(s, sid, status, pending)
    ensures RemindersKept(s, s', cfg)
    ensures sid in s.sequences ==> sid in s'.sequences && s'.sequences[sid].reason == s.sequences[sid].reason
  {
  }

  lemma StopCarries(s: State, cfg: Config, sid: nat, status: SequenceStatus, pending: ReminderStatus)
    requires Inv(s) && AllCarrySteps(s, cfg) && !status.Active? && (pending.Dropped? || pending.Revoked?)
    ensures AllCarrySteps(Stop(s, sid, status, pending), cfg)
  {
    if sid in s.sequences && s.sequences[sid].status.Active? {
      StopKeepsInv(s, sid, status, pending);
      StopKeepsReminders(s, cfg, sid, status, pending, Stop(s, sid, status, pending));
      TouchKeepsCarried(s, Stop(s, sid, status, pending), cfg, sid);
    }
  }

  lemma CallCarries(s: State, cfg: Config, call: Call)
    requires Inv(s) && AllCarrySteps(s, cfg) && Possible(s, call) && Reads(call, cfg)
    ensures AllCarrySteps(Result(s, call), cfg)
  {
    match call
    case StartCall(_, reason, targets, ref, baseTime) => StartCarries(s, cfg, reason, targets, ref, baseTime);
    case RunDueCall(_, now, limit, due, ticks) => RunDueCarries(s, cfg, due, ticks);
    case SuppressCall(sid) => StopCarries(s, cfg, sid, Suppressed, Dropped);
    case CancelCall(sid) => StopCarries(s, cfg, sid, Cancelled, Revoked);
  }

  /** In every run with fixed schedules each reminder, to its end, carries the channels, the template
      and the escalation flag configured for its own step. */
  lemma {:induction false} RemindersCarrySteps(tr: seq<State>, calls: seq<Call>, cfg: Config, i: nat)
    requires IsRun(tr, calls) && i < |tr|
    requires forall j :: 0 <= j < |calls| ==> Reads(calls[j], cfg)
    ensures AllCarrySteps(tr[i], cfg)
  {
    if i > 0 {
      RemindersCarrySteps(tr, calls, cfg, i - 1);
      RunsKeepInv(tr, calls, i - 1);
      CallCarries(tr[i - 1], cfg, calls[i - 1]);
    }
  }

  /** A reminder of the sequence was sent for a step that is configured to escalate. */
  ghost predicate EscalatingStepSent(s: State, schedule: Schedule, sid: nat) {
    exists r :: r in s.reminders && SentForEscalatingStep(s.reminders[r], schedule, sid)
  }

  predicate SentForEscalatingStep(r: Reminder, schedule: Schedule, sid: nat) {
    r.sequenceId == sid && r.status.Sent? && r.step < |schedule.steps| && schedule.steps[r.step].escalate
  }

  /** In every run with fixed schedules a sequence is escalated iff a reminder was sent for a step
      configured to escalate. */
  lemma EscalatedIffConfigured(tr: seq<State>, calls: seq<Call>, cfg: Config, i: nat, sid: nat)
    requires IsRun(tr, calls) && i < |tr| && sid in tr[i].sequences
    requires forall j :: 0 <= j < |calls| ==> Reads(calls[j], cfg)
    ensures tr[i].sequences[sid].reason in cfg
    ensures tr[i].sequences[sid].status.Escalated? <==>
              EscalatingStepSent(tr[i], cfg[tr[i].sequences[sid].reason], sid)
  {
    var s := tr[i];
    RemindersCarrySteps(tr, calls, cfg, i);
    EscalatedIff(tr, calls, i, sid);
    forall r | r in s.reminders
      ensures SentEscalation(s.reminders[r], sid) <==>
                SentForEscalatingStep(s.reminders[r], cfg[s.sequences[sid].reason], sid)
    {
      assert CarriesStep(s, cfg, s.reminders[r]);
    }
  }
}
