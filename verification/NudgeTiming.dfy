/**
 When rounds happen: never before the base time plus the offset of their step, exactly as long
 as the worker's ticks are not ahead of the clock.
 */
module NudgeTiming {
  import opened Shared
  import opened Nudge
  import opened NudgeInvariant
  import opened NudgeRuns
  import opened NudgeTermination

  /** The pending reminder's time is not before its step's. */
  predicate NotEarly(r: Reminder, q: Sequence, schedule: Schedule) {
    r.step < |schedule.steps| && r.scheduledFor >= q.baseTime + schedule.steps[r.step].offset
  }

  ghost predicate PendingNotEarly(s: State, cfg: Config, sid: nat) {
    && sid in s.sequences && s.sequences[sid].reason in cfg
    && forall r :: r in Pending(s, sid) ==> NotEarly(s.reminders[r], s.sequences[sid], cfg[s.sequences[sid].reason])
  }

  /** A round did not happen before the base time plus the offset of its step. */
  predicate RoundOnTime(s: State, cfg: Config, rd: Round) {
    && rd.sequenceId in s.sequences
    && var q := s.sequences[rd.sequenceId];
    && q.reason in cfg && rd.step < |cfg[q.reason].steps|
    && rd.at >= q.baseTime + cfg[q.reason].steps[rd.step].offset
  }

  ghost predicate OnTime(s: State, cfg: Config) {
    && (forall sid :: sid in s.sequences ==> PendingNotEarly(s, cfg, sid))
    && (forall i :: 0 <= i < |s.rounds| ==> RoundOnTime(s, cfg, s.rounds[i]))
  }

  // ----- one round -----

  /** The round is not before the reminder is due, and a backoff does not go back in time. */
  predicate Timely(r: Reminder, tick: Tick) {
    tick.at >= r.scheduledFor && tick.delay >= 0.0
  }

  lemma FailureNotEarly(s: State, cfg: Config, r: Reminder, q: Sequence, tick: Tick, s': State)
    requires Dispatchable(s, r, q) && PendingNotEarly(s, cfg, q.id) && Timely(r, tick)
    requires s' == HandleFailure(s, r, q, cfg[q.reason], tick)
    ensures PendingNotEarly(s', cfg, q.id)
  {
    SoleReminder(s, r, q);
    assert r.id in Pending(s, q.id);
  }

  lemma RoundNotEarly(s: State, cfg: Config, r: Reminder, q: Sequence, tick: Tick, s': State)
    requires Dispatchable(s, r, q) && PendingNotEarly(s, cfg, q.id) && Timely(r, tick)
    requires s' == DispatchReminder(s, r, q, cfg[q.reason], tick)
    ensures PendingNotEarly(s', cfg, q.id)
  {
    SoleReminder(s, r, q);
    if RoundFails(r, q, tick.ok) {
      FailureNotEarly(s, cfg, r, q, tick, s');
    } else if r.escalate {
      assert s' == Close(Logged(s, r, r.(status := Sent), tick), q, Escalated, Revoked);
    } else {
      assert s' == ScheduleStep(Logged(s, r, r.(status := Sent), tick), q, cfg[q.reason], r.step + 1);
    }
  }

  // ----- all sequences, all calls -----

  lemma TouchKeepsOnTime(s: State, s': State, cfg: Config, sid: nat)
    requires OnTime(s, cfg) && Touches(s, s', sid) && PendingNotEarly(s', cfg, sid)
    requires forall i :: 0 <= i < |s'.rounds| ==> s'.rounds[i] in s.rounds || RoundOnTime(s', cfg, s'.rounds[i])
    ensures OnTime(s', cfg)
  {
    forall i | 0 <= i < |s'.rounds| ensures RoundOnTime(s', cfg, s'.rounds[i]) {
      var rd := s'.rounds[i];
      assert rd in s.rounds ==> RoundOnTime(s, cfg, rd);
      assert rd.sequenceId != sid ==> Untouched(s, s', rd.sequenceId);
    }
    forall x | x in s'.sequences ensures PendingNotEarly(s', cfg, x) {
      assert x != sid ==> Untouched(s, s', x);
    }
  }

  lemma ProcessKeepsOnTime(s: State, cfg: Config, r: Reminder, tick: Tick)
    requires Inv(s) && OnTime(s, cfg) && IsStored(s, r) && r.Due() && Timely(r, tick)
    ensures !Raises(s, cfg, r) && OnTime(Process(s, cfg, r, tick), cfg)
  {
    PendingIsDispatchable(s, r);
    var q, s' := s.sequences[r.sequenceId], Process(s, cfg, r, tick);
    assert PendingNotEarly(s, cfg, q.id) && r.id in Pending(s, q.id);
    ProcessDispatches(s, cfg, r, tick);
    ProcessKeepsInv(s, cfg, r, tick);
    DispatchLogs(s, r, q, cfg[q.reason], tick);
    RoundNotEarly(s, cfg, r, q, tick, s');
    TouchKeepsOnTime(s, s', cfg, q.id);
  }

  lemma {:induction false} RunDueKeepsOnTime(s: State, cfg: Config, due: seq<Reminder>, ticks: seq<Tick>)
    requires Inv(s) && OnTime(s, cfg) && Snapshot(s, due) && |ticks| == |due|
    requires forall i :: 0 <= i < |due| ==> Timely(due[i], ticks[i])
    ensures OnTime(RunDue(s, cfg, due, ticks), cfg)
    decreases |due|
  {
    if due != [] {
      ProcessKeepsOnTime(s, cfg, due[0], ticks[0]);
      ProcessKeepsInv(s, cfg, due[0], ticks[0]);
      ProcessKeepsSnapshot(s, cfg, due, ticks[0]);
      RunDueKeepsOnTime(Process(s, cfg, due[0], ticks[0]), cfg, due[1..], ticks[1..]);
    }
  }

  lemma StartKeepsOnTime(s: State, cfg: Config, reason: string, targets: map<Channel, string>,
                         ref: Option<string>, baseTime: real)
    requires Inv(s) && OnTime(s, cfg)
    ensures OnTime(Start(s, cfg, reason, targets, ref, baseTime), cfg)
  {
    if !HasActive(s, reason, ref) && reason in cfg {
      var q := Sequence(s.next, reason, targets, ref, Active, 0, baseTime);
      FirstStepTouches(s, q, cfg[reason]);
      TouchKeepsOnTime(s, ScheduleStep(Opened(s, q), q, cfg[reason], 0), cfg, q.id);
    }
  }

  lemma StopKeepsOnTime(s: State, cfg: Config, sid: nat, status: SequenceStatus, pending: ReminderStatus)
    requires Inv(s) && OnTime(s, cfg) && (status.Suppressed? || status.Cancelled?)
    requires pending.Dropped? || pending.Revoked?
    ensures OnTime(Stop(s, sid, status, pending), cfg)
  {
    if sid in s.sequences && s.sequences[sid].status.Active? {
      StopKeepsInv(s, sid, status, pending);
      TouchKeepsOnTime(s, Stop(s, sid, status, pending), cfg, sid);
    }
  }

  /** The tick is not ahead of the clock, and no backoff goes back in time. */
  predicate ClockKept(call: Call) {
    call.RunDueCall? ==>
      forall i :: 0 <= i < |call.ticks| ==> call.ticks[i].at >= call.now && call.ticks[i].delay >= 0.0
  }

  lemma CallKeepsOnTime(s: State, cfg: Config, call: Call)
    requires Inv(s) && OnTime(s, cfg) && Possible(s, call) && Reads(call, cfg) && ClockKept(call)
    ensures OnTime(Result(s, call), cfg)
  {
    match call
    case StartCall(_, reason, targets, ref, baseTime) => StartKeepsOnTime(s, cfg, reason, targets, ref, baseTime);
    case RunDueCall(_, now, limit, due, ticks) => RunDueKeepsOnTime(s, cfg, due, ticks);
    case SuppressCall(sid) => StopKeepsOnTime(s, cfg, sid, Suppressed, Dropped);
    case CancelCall(sid) => StopKeepsOnTime(s, cfg, sid, Cancelled, Revoked);
  }

  /** In every run whose ticks are not ahead of the clock, no attempt is before its time. */
  lemma {:induction false} RoundsOnTime(tr: seq<State>, calls: seq<Call>, cfg: Config, i: nat)
    requires IsRun(tr, calls) && i < |tr|
    requires forall j :: 0 <= j < |calls| ==> Reads(calls[j], cfg) && ClockKept(calls[j])
    ensures OnTime(tr[i], cfg)
  {
    if i > 0 {
      RoundsOnTime(tr, calls, cfg, i - 1);
      RunsKeepInv(tr, calls, i - 1);
      CallKeepsOnTime(tr[i - 1], cfg, calls[i - 1]);
    }
  }

  /** In every run, whatever the clock does and however schedules are edited, the attempts of a
      sequence walk its steps in order without a gap. */
  lemma RoundsInOrder(tr: seq<State>, calls: seq<Call>, i: nat, sid: nat)
    requires IsRun(tr, calls) && i < |tr| && sid in tr[i].sequences
    ensures NoGap(StepsOf(tr[i].rounds, sid))
  {
    RunsKeepInv(tr, calls, i);
    assert SequenceInv(tr[i], sid);
  }

  // ----- the clock condition is needed -----

  /** Every tick of the call is asked for at now and takes place at at. */
  predicate TicksAt(call: Call, now: real, at: real) {
    call.RunDueCall? ==>
      && call.now == now
      && forall i :: 0 <= i < |call.ticks| ==> call.ticks[i].at == at && call.ticks[i].delay >= 0.0
  }

  /** A run of such ticks over fixed schedules in which some round is early. */
  ghost predicate HasEarlyRound(tr: seq<State>, calls: seq<Call>, cfg: Config, now: real, at: real) {
    && IsRun(tr, calls)
    && (forall j :: 0 <= j < |calls| ==> Reads(calls[j], cfg) && TicksAt(calls[j], now, at))
    && var s := tr[|tr| - 1];
       exists k :: 0 <= k < |s.rounds| && !RoundOnTime(s, cfg, s.rounds[k])
  }

  /** One step that is due at now. */
  function OneStep(now: real): Config {
    map["reason" := Schedule([StepConfig(now, [], "template", false)], 1)]
  }

  function OneReminder(now: real): Reminder {
    Reminder(1, 0, 0, 0.0 + now, [], "template", false, Scheduled, 0)
  }

  lemma Started(now: real)
    ensures var s := Start(EMPTY_STORE, OneStep(now), "reason", map[], None, 0.0);
            && s.sequences == map[0 := Sequence(0, "reason", map[], None, Active, 0, 0.0)]
            && s.reminders == map[1 := OneReminder(now)] && s.rounds == []
            && IsDueList(s, now, 1, [OneReminder(now)])
  {
  }

  /** Its round, at a clock that reads at. */
  lemma RoundAt(s: State, now: real, tick: Tick)
    requires s.sequences == map[0 := Sequence(0, "reason", map[], None, Active, 0, 0.0)] && s.rounds == []
    ensures var s' := RunDue(s, OneStep(now), [OneReminder(now)], [tick]);
            && s'.rounds == [Round(0, 0, tick.at)]
            && 0 in s'.sequences && s'.sequences[0].reason == "reason" && s'.sequences[0].baseTime == 0.0
  {
    var due, ticks := [OneReminder(now)], [tick];
    assert due[1..] == [] && ticks[1..] == [];
  }

  /** Some run of ticks asked for at now and taking place at at has an early round iff the asked
      time is ahead of the clock. */
  lemma EarlyIffAhead(now: real, at: real)
    ensures (exists tr, calls, cfg :: HasEarlyRound(tr, calls, cfg, now, at)) <==> at < now
  {
    if at < now {
      var cfg, due, tick := OneStep(now), [OneReminder(now)], Tick(_ => true, at, 0.0);
      var s := Start(EMPTY_STORE, cfg, "reason", map[], None, 0.0);
      Started(now);
      RoundAt(s, now, tick);
      var calls := [StartCall(cfg, "reason", map[], None, 0.0), RunDueCall(cfg, now, 1, due, [tick])];
      var tr := [EMPTY_STORE, s, RunDue(s, cfg, due, [tick])];
      assert IsRun(tr, calls);
      assert !RoundOnTime(tr[2], cfg, tr[2].rounds[0]);
      assert HasEarlyRound(tr, calls, cfg, now, at);
    } else {
      forall tr, calls, cfg ensures !HasEarlyRound(tr, calls, cfg, now, at) {
        NeverEarly(tr, calls, cfg, now, at);
      }
    }
  }

  lemma NeverEarly(tr: seq<State>, calls: seq<Call>, cfg: Config, now: real, at: real)
    requires at >= now
    ensures !HasEarlyRound(tr, calls, cfg, now, at)
  {
    if IsRun(tr, calls) && forall j :: 0 <= j < |calls| ==> Reads(calls[j], cfg) && TicksAt(calls[j], now, at) {
      RoundsOnTime(tr, calls, cfg, |tr| - 1);
    }
  }
}
