/**
 With schedules that stay fixed, every sequence ends after a bounded number of dispatch rounds,
 whatever the dispatcher, the clock and the backoff do.
 */
module NudgeTermination {
  import opened Shared
  import opened Nudge
  import opened NudgeInvariant
  import opened NudgeRuns

  /** Rounds one step can take: max_attempts, but at least one. */
  function Tries(schedule: Schedule): nat {
    if schedule.maxAttempts <= 1 then 1 else schedule.maxAttempts
  }

  function Bound(schedule: Schedule): nat {
    |schedule.steps| * Tries(schedule)
  }

  /** Rounds used up when a reminder of this step has failed this often. */
  function Used(schedule: Schedule, step: nat, attempts: nat): nat {
    step * Tries(schedule) + attempts
  }

  lemma UsedBelowBound(schedule: Schedule, step: nat, attempts: nat)
    requires step < |schedule.steps| && attempts < Tries(schedule)
    ensures Used(schedule, step, attempts) < Bound(schedule)
  {
    var n, m := |schedule.steps|, Tries(schedule);
    assert (step + 1) * m <= n * m;
    assert (step + 1) * m == step * m + m;
  }

  lemma UsedUpToNextStep(schedule: Schedule, step: nat, attempts: nat)
    requires attempts < Tries(schedule)
    ensures Used(schedule, step, attempts) + 1 <= Used(schedule, step + 1, 0)
  {
    var m := Tries(schedule);
    assert (step + 1) * m == step * m + m;
  }

  /** The reminder is within its schedule and within its retries. */
  predicate WithinSchedule(r: Reminder, schedule: Schedule) {
    r.step < |schedule.steps| && r.attempts < Tries(schedule)
  }

  /** The rounds so far fit in what the pending reminder has used up. */
  ghost predicate Budget(s: State, cfg: Config, sid: nat) {
    && sid in s.sequences
    && var q := s.sequences[sid];
    && q.reason in cfg
    && var schedule, done := cfg[q.reason], |StepsOf(s.rounds, sid)|;
    && done <= Bound(schedule)
    && (q.status.Completed? ==> Follows(StepsOf(s.rounds, sid), |schedule.steps|))
    && (forall r :: r in Pending(s, sid) ==>
                      WithinSchedule(s.reminders[r], schedule) &&
                      done <= Used(schedule, s.reminders[r].step, s.reminders[r].attempts))
  }

  ghost predicate Budgets(s: State, cfg: Config) {
    forall sid :: sid in s.sequences ==> Budget(s, cfg, sid)
  }

  /** Rounds the sequence may still take. */
  ghost function RoundsLeft(s: State, cfg: Config, sid: nat): int {
    if sid !in s.sequences || s.sequences[sid].reason !in cfg || Pending(s, sid) == {} then 0
    else
      var r :| r in Pending(s, sid);
      var schedule := cfg[s.sequences[sid].reason];
      Bound(schedule) - Used(schedule, s.reminders[r].step, s.reminders[r].attempts)
  }

  // ----- one round -----

  /** From s to s' the sequence stays within its budget and has fewer rounds left. */
  ghost predicate Spends(s: State, s': State, cfg: Config, sid: nat) {
    Budget(s', cfg, sid) && RoundsLeft(s', cfg, sid) < RoundsLeft(s, cfg, sid)
  }

  lemma RetryBudget(s: State, cfg: Config, r: Reminder, q: Sequence, tick: Tick)
    requires Dispatchable(s, r, q) && Budget(s, cfg, q.id)
    requires r.attempts + 1 < cfg[q.reason].maxAttempts
    ensures Spends(s, Logged(s, r, Retried(r, tick), tick), cfg, q.id)
  {
    var r' := Retried(r, tick);
    var s' := Logged(s, r, r', tick);
    SoleReminder(s, r, q);
    assert r.id in Pending(s, q.id);
    UsedBelowBound(cfg[q.reason], r'.step, r'.attempts);
    assert Pending(s', q.id) == {r.id};
  }

  lemma RoundsLeftOf(s: State, cfg: Config, r: Reminder, q: Sequence)
    requires Dispatchable(s, r, q) && Budget(s, cfg, q.id)
    ensures WithinSchedule(r, cfg[q.reason])
    ensures |StepsOf(s.rounds, q.id)| <= Used(cfg[q.reason], r.step, r.attempts)
    ensures RoundsLeft(s, cfg, q.id) == Bound(cfg[q.reason]) - Used(cfg[q.reason], r.step, r.attempts)
    ensures RoundsLeft(s, cfg, q.id) > 0
  {
    SoleReminder(s, r, q);
    assert r.id in Pending(s, q.id);
    UsedBelowBound(cfg[q.reason], r.step, r.attempts);
  }

  /** After a round that settles its reminder, the count fits in the start of the next step. */
  lemma SettledBudget(s: State, cfg: Config, r: Reminder, q: Sequence, r': Reminder, tick: Tick)
    requires Dispatchable(s, r, q) && Budget(s, cfg, q.id)
    ensures var done := |StepsOf(Logged(s, r, r', tick).rounds, q.id)|;
            done <= Used(cfg[q.reason], r.step + 1, 0) && done <= Bound(cfg[q.reason])
    ensures Bound(cfg[q.reason]) - Used(cfg[q.reason], r.step + 1, 0) < RoundsLeft(s, cfg, q.id)
  {
    RoundsLeftOf(s, cfg, r, q);
    UsedUpToNextStep(cfg[q.reason], r.step, r.attempts);
  }

  lemma NextStepBudget(mid: State, cfg: Config, q: Sequence, i: nat)
    requires Between(mid, q, i) && q.reason in cfg && i <= |cfg[q.reason].steps|
    requires |StepsOf(mid.rounds, q.id)| <= Used(cfg[q.reason], i, 0)
    requires |StepsOf(mid.rounds, q.id)| <= Bound(cfg[q.reason])
    ensures var s' := ScheduleStep(mid, q, cfg[q.reason], i);
            && Budget(s', cfg, q.id)
            && (RoundsLeft(s', cfg, q.id) == 0 ||
                RoundsLeft(s', cfg, q.id) == Bound(cfg[q.reason]) - Used(cfg[q.reason], i, 0))
  {
    var s' := ScheduleStep(mid, q, cfg[q.reason], i);
    if i < |cfg[q.reason].steps| {
      assert Pending(s', q.id) == {mid.next};
    } else {
      assert Pending(s', q.id) == {};
    }
  }

  lemma AdvanceBudget(s: State, cfg: Config, r: Reminder, q: Sequence, r': Reminder, tick: Tick)
    requires Dispatchable(s, r, q) && Budget(s, cfg, q.id)
    requires r'.id == r.id && r'.sequenceId == r.sequenceId && !r'.Due()
    ensures Spends(s, ScheduleStep(Logged(s, r, r', tick), q, cfg[q.reason], r.step + 1), cfg, q.id)
  {
    LoggedBetween(s, r, q, r', tick);
    SettledBudget(s, cfg, r, q, r', tick);
    RoundsLeftOf(s, cfg, r, q);
    NextStepBudget(Logged(s, r, r', tick), cfg, q, r.step + 1);
  }

  lemma EscalateBudget(s: State, cfg: Config, r: Reminder, q: Sequence, tick: Tick)
    requires Dispatchable(s, r, q) && Budget(s, cfg, q.id)
    ensures Spends(s, Close(Logged(s, r, r.(status := Sent), tick), q, Escalated, Revoked), cfg, q.id)
  {
    var mid := Logged(s, r, r.(status := Sent), tick);
    LoggedBetween(s, r, q, r.(status := Sent), tick);
    SettledBudget(s, cfg, r, q, r.(status := Sent), tick);
    RoundsLeftOf(s, cfg, r, q);
    CloseKeeps(mid, q, Escalated, Revoked);
    assert Pending(Close(mid, q, Escalated, Revoked), q.id) == {};
  }

  lemma FailureBudget(s: State, cfg: Config, r: Reminder, q: Sequence, tick: Tick)
    requires Dispatchable(s, r, q) && Budget(s, cfg, q.id)
    ensures Spends(s, HandleFailure(s, r, q, cfg[q.reason], tick), cfg, q.id)
  {
    if r.attempts + 1 < cfg[q.reason].maxAttempts {
      RetryBudget(s, cfg, r, q, tick);
    } else {
      AdvanceBudget(s, cfg, r, q, GivenUp(r), tick);
    }
  }

  /** Every round uses up at least one of the rounds the sequence had left. */
  lemma RoundLowersRoundsLeft(s: State, cfg: Config, r: Reminder, q: Sequence, tick: Tick, s': State)
    requires Dispatchable(s, r, q) && Budget(s, cfg, q.id)
    requires s' == DispatchReminder(s, r, q, cfg[q.reason], tick)
    ensures Spends(s, s', cfg, q.id)
  {
    if RoundFails(r, q, tick.ok) {
      FailureBudget(s, cfg, r, q, tick);
    } else if r.escalate {
      assert s' == Close(Logged(s, r, r.(status := Sent), tick), q, Escalated, Revoked);
      EscalateBudget(s, cfg, r, q, tick);
    } else {
      assert s' == ScheduleStep(Logged(s, r, r.(status := Sent), tick), q, cfg[q.reason], r.step + 1);
      AdvanceBudget(s, cfg, r, q, r.(status := Sent), tick);
    }
  }

  /** A sequence has rounds left exactly while it is active. */
  lemma RoundsLeftWhileActive(s: State, cfg: Config, sid: nat)
    requires Inv(s) && sid in s.sequences && Budget(s, cfg, sid)
    ensures RoundsLeft(s, cfg, sid) >= 0
    ensures RoundsLeft(s, cfg, sid) > 0 <==> s.sequences[sid].status.Active?
    ensures |StepsOf(s.rounds, sid)| + RoundsLeft(s, cfg, sid) <= Bound(cfg[s.sequences[sid].reason])
  {
    assert SequenceInv(s, sid);
    if s.sequences[sid].status.Active? {
      var r :| OnePending(s, sid, r);
      assert r in Pending(s, sid);
      UsedBelowBound(cfg[s.sequences[sid].reason], s.reminders[r].step, s.reminders[r].attempts);
    }
  }

  // ----- all sequences, all calls -----

  lemma TouchKeepsBudgets(s: State, s': State, cfg: Config, sid: nat)
    requires Budgets(s, cfg) && Touches(s, s', sid) && Budget(s', cfg, sid)
    ensures Budgets(s', cfg)
  {
    forall x | x in s'.sequences ensures Budget(s', cfg, x) {
      if x != sid {
        assert Untouched(s, s', x);
      }
    }
  }

  lemma ProcessKeepsBudgets(s: State, cfg: Config, r: Reminder, tick: Tick)
    requires Inv(s) && Budgets(s, cfg) && IsStored(s, r) && r.Due()
    ensures !Raises(s, cfg, r) && Budgets(Process(s, cfg, r, tick), cfg)
  {
    PendingIsDispatchable(s, r);
    var q := s.sequences[r.sequenceId];
    assert Budget(s, cfg, q.id);
    ProcessKeepsInv(s, cfg, r, tick);
    ProcessDispatches(s, cfg, r, tick);
    RoundLowersRoundsLeft(s, cfg, r, q, tick, Process(s, cfg, r, tick));
    TouchKeepsBudgets(s, Process(s, cfg, r, tick), cfg, q.id);
  }

  lemma {:induction false} RunDueKeepsBudgets(s: State, cfg: Config, due: seq<Reminder>, ticks: seq<Tick>)
    requires Inv(s) && Budgets(s, cfg) && Snapshot(s, due) && |ticks| == |due|
    ensures Budgets(RunDue(s, cfg, due, ticks), cfg)
    decreases |due|
  {
    if due != [] {
      ProcessKeepsBudgets(s, cfg, due[0], ticks[0]);
      ProcessKeepsInv(s, cfg, due[0], ticks[0]);
      ProcessKeepsSnapshot(s, cfg, due, ticks[0]);
      RunDueKeepsBudgets(Process(s, cfg, due[0], ticks[0]), cfg, due[1..], ticks[1..]);
    }
  }

  lemma StartKeepsBudgets(s: State, cfg: Config, reason: string, targets: map<Channel, string>,
                          ref: Option<string>, baseTime: real)
    requires Inv(s) && Budgets(s, cfg)
    ensures Budgets(Start(s, cfg, reason, targets, ref, baseTime), cfg)
  {
    if !HasActive(s, reason, ref) && reason in cfg {
      var q := Sequence(s.next, reason, targets, ref, Active, 0, baseTime);
      OpenedBetween(s, q);
      NextStepBudget(Opened(s, q), cfg, q, 0);
      FirstStepTouches(s, q, cfg[reason]);
      TouchKeepsBudgets(s, ScheduleStep(Opened(s, q), q, cfg[reason], 0), cfg, q.id);
    }
  }

  lemma StopKeepsBudgets(s: State, cfg: Config, sid: nat, status: SequenceStatus, pending: ReminderStatus)
    requires Inv(s) && Budgets(s, cfg) && (status.Suppressed? || status.Cancelled?)
    requires pending.Dropped? || pending.Revoked?
    ensures Budgets(Stop(s, sid, status, pending), cfg)
  {
    if sid in s.sequences && s.sequences[sid].status.Active? {
      StopKeepsInv(s, sid, status, pending);
      TouchKeepsBudgets(s, Stop(s, sid, status, pending), cfg, sid);
    }
  }

  /** The call reads the fixed schedules. */
  predicate Reads(call: Call, cfg: Config) {
    call.StartCall? || call.RunDueCall? ==> call.cfg == cfg
  }

  lemma CallKeepsBudgets(s: State, cfg: Config, call: Call)
    requires Inv(s) && Budgets(s, cfg) && Possible(s, call) && Reads(call, cfg)
    ensures Budgets(Result(s, call), cfg)
  {
    match call
    case StartCall(_, reason, targets, ref, baseTime) => StartKeepsBudgets(s, cfg, reason, targets, ref, baseTime);
    case RunDueCall(_, now, limit, due, ticks) => RunDueKeepsBudgets(s, cfg, due, ticks);
    case SuppressCall(sid) => StopKeepsBudgets(s, cfg, sid, Suppressed, Dropped);
    case CancelCall(sid) => StopKeepsBudgets(s, cfg, sid, Cancelled, Revoked);
  }

  lemma {:induction false} RunsKeepBudgets(tr: seq<State>, calls: seq<Call>, cfg: Config, i: nat)
    requires IsRun(tr, calls) && i < |tr|
    requires forall j :: 0 <= j < |calls| ==> Reads(calls[j], cfg)
    ensures Budgets(tr[i], cfg)
  {
    if i > 0 {
      RunsKeepBudgets(tr, calls, cfg, i - 1);
      RunsKeepInv(tr, calls, i - 1);
      CallKeepsBudgets(tr[i - 1], cfg, calls[i - 1]);
    }
  }

  /**
   Termination: in every run with fixed schedules a sequence takes at most
   steps * max(1, max_attempts) rounds, and is finished once it has taken them all.
   */
  lemma BoundedRounds(tr: seq<State>, calls: seq<Call>, cfg: Config, i: nat, sid: nat)
    requires IsRun(tr, calls) && i < |tr| && sid in tr[i].sequences
    requires forall j :: 0 <= j < |calls| ==> Reads(calls[j], cfg)
    ensures tr[i].sequences[sid].reason in cfg
    ensures |StepsOf(tr[i].rounds, sid)| <= Bound(cfg[tr[i].sequences[sid].reason])
    ensures |StepsOf(tr[i].rounds, sid)| == Bound(cfg[tr[i].sequences[sid].reason]) ==> Finished(tr[i], sid)
  {
    RunsKeepBudgets(tr, calls, cfg, i);
    RunsKeepInv(tr, calls, i);
    RoundsLeftWhileActive(tr[i], cfg, sid);
  }

  lemma {:induction false} NoGapCovers(steps: seq<nat>, k: nat)
    requires NoGap(steps) && steps != [] && k <= steps[|steps| - 1]
    ensures k in steps
  {
    var n := |steps| - 1;
    assert if n == 0 then steps[n] == 0 else steps[n - 1] <= steps[n] <= steps[n - 1] + 1;
    if k != steps[n] {
      forall i | 0 <= i < n
        ensures if i == 0 then steps[..n][0] == 0 else steps[..n][i - 1] <= steps[..n][i] <= steps[..n][i - 1] + 1
      {
        assert steps[..n][i] == steps[i];
        assert if i == 0 then steps[0] == 0 else steps[i - 1] <= steps[i] <= steps[i - 1] + 1;
      }
      NoGapCovers(steps[..n], k);
    }
  }

  /** A sequence that completed has attempted every step of its schedule. */
  lemma CompletedAttemptedAll(tr: seq<State>, calls: seq<Call>, cfg: Config, i: nat, sid: nat, k: nat)
    requires IsRun(tr, calls) && i < |tr| && sid in tr[i].sequences
    requires forall j :: 0 <= j < |calls| ==> Reads(calls[j], cfg)
    requires tr[i].sequences[sid].status.Completed?
    ensures tr[i].sequences[sid].reason in cfg
    ensures k < |cfg[tr[i].sequences[sid].reason].steps| ==> k in StepsOf(tr[i].rounds, sid)
  {
    RunsKeepBudgets(tr, calls, cfg, i);
    RunsKeepInv(tr, calls, i);
    assert Budget(tr[i], cfg, sid) && SequenceInv(tr[i], sid);
    if k < |cfg[tr[i].sequences[sid].reason].steps| {
      NoGapCovers(StepsOf(tr[i].rounds, sid), k);
    }
  }
}
