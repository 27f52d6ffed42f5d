/**
 What every run of nudge calls keeps, whatever the dispatcher does and however the schedules
 are edited between calls: one pending reminder per active sequence, none per finished one,
 one active sequence per reason and target, and steps attempted in order without a gap.
 */
module NudgeInvariant {
  import opened Nudge

  /** The steps of the rounds of one sequence, in the order they happened. */
  function StepsOf(rounds: seq<Round>, sid: nat): seq<nat> {
    if rounds == [] then []
    else
      var n := |rounds| - 1;
      if rounds[n].sequenceId == sid then StepsOf(rounds[..n], sid) + [rounds[n].step]
      else StepsOf(rounds[..n], sid)
  }

  /** Steps start at 0 and each is a retry of the one before it or the next one. */
  ghost predicate NoGap(steps: seq<nat>) {
    forall i :: 0 <= i < |steps| ==>
                  if i == 0 then steps[0] == 0 else steps[i - 1] <= steps[i] <= steps[i - 1] + 1
  }

  predicate Follows(steps: seq<nat>, step: nat) {
    if steps == [] then step == 0 else steps[|steps| - 1] <= step <= steps[|steps| - 1] + 1
  }

  ghost predicate OnePending(s: State, sid: nat, r: nat)
    requires sid in s.sequences
  {
    && Pending(s, sid) == {r}
    && s.reminders[r].step == s.sequences[sid].currentStep
    && Follows(StepsOf(s.rounds, sid), s.reminders[r].step)
  }

  ghost predicate SequenceInv(s: State, sid: nat)
    requires sid in s.sequences
  {
    && NoGap(StepsOf(s.rounds, sid))
    && if s.sequences[sid].status.Active? then exists r :: OnePending(s, sid, r)
       else Pending(s, sid) == {}
  }

  ghost predicate Unique(s: State) {
    forall a, b :: a in s.sequences && b in s.sequences && a != b ==> !Rivals(s.sequences[a], s.sequences[b])
  }

  /** Two active sequences for one reason and one target. */
  predicate Rivals(a: Sequence, b: Sequence) {
    a.status.Active? && b.status.Active? && a.reason == b.reason && a.targetRef == b.targetRef && a.targetRef.Some?
  }

  ghost predicate Inv(s: State) {
    && Keyed(s)
    && (forall r :: r in s.reminders ==> s.reminders[r].sequenceId in s.sequences)
    && (forall i :: 0 <= i < |s.rounds| ==> s.rounds[i].sequenceId in s.sequences)
    && (forall sid :: sid in s.sequences ==> SequenceInv(s, sid))
    && Unique(s)
  }

  // ----- one sequence changes, the others do not -----

  ghost predicate SameReminders(s: State, s': State, sid: nat) {
    && (forall r :: r in s.reminders && s.reminders[r].sequenceId == sid ==>
                      r in s'.reminders && s'.reminders[r] == s.reminders[r])
    && (forall r :: r in s'.reminders && s'.reminders[r].sequenceId == sid ==>
                      r in s.reminders && s'.reminders[r] == s.reminders[r])
  }

  /** Nothing of sequence x differs between the two states. */
  ghost predicate Untouched(s: State, s': State, x: nat) {
    && (x in s.sequences <==> x in s'.sequences)
    && (x in s.sequences ==> s'.sequences[x] == s.sequences[x])
    && SameReminders(s, s', x)
    && StepsOf(s'.rounds, x) == StepsOf(s.rounds, x)
  }

  ghost predicate Touches(s: State, s': State, sid: nat) {
    && sid in s'.sequences
    && (sid in s.sequences ==> Rewrites(s.sequences[sid], s'.sequences[sid]))
    && forall x :: x != sid ==> Untouched(s, s', x)
  }

  /** A sequence keeps its identity, and never becomes active again. */
  predicate Rewrites(q: Sequence, q': Sequence) {
    && q'.id == q.id && q'.reason == q.reason && q'.targets == q.targets
    && q'.targetRef == q.targetRef && q'.baseTime == q.baseTime
    && (q'.status.Active? ==> q.status.Active?)
  }

  lemma UntouchedKeepsInv(s: State, s': State, x: nat)
    requires x in s.sequences && SequenceInv(s, x) && Untouched(s, s', x)
    ensures SequenceInv(s', x)
  {
    assert Pending(s', x) == Pending(s, x);
    if s.sequences[x].status.Active? {
      var r :| OnePending(s, x, r);
      assert r in Pending(s, x);
      assert OnePending(s', x, r);
    }
  }

  lemma TouchKeepsUnique(s: State, s': State, sid: nat)
    requires Unique(s) && Touches(s, s', sid)
    requires sid !in s.sequences ==>
               forall x :: x in s.sequences ==> !Rivals(s.sequences[x], s'.sequences[sid])
    ensures Unique(s')
  {
    forall a, b | a in s'.sequences && b in s'.sequences && a != b
      ensures !Rivals(s'.sequences[a], s'.sequences[b])
    {
      assert a != sid ==> Untouched(s, s', a);
      assert b != sid ==> Untouched(s, s', b);
    }
  }

  lemma TouchKeepsOwners(s: State, s': State, sid: nat, r: nat)
    requires Inv(s) && Touches(s, s', sid) && r in s'.reminders
    ensures s'.reminders[r].sequenceId in s'.sequences
  {
    var x := s'.reminders[r].sequenceId;
    if x != sid {
      assert Untouched(s, s', x);
    }
  }

  /** The whole invariant follows from what happened to the one sequence a step is about. */
  lemma TouchKeepsInv(s: State, s': State, sid: nat)
    requires Inv(s) && Keyed(s') && Touches(s, s', sid) && SequenceInv(s', sid)
    requires forall i :: 0 <= i < |s'.rounds| ==> s'.rounds[i].sequenceId == sid || s'.rounds[i] in s.rounds
    requires sid !in s.sequences ==>
               forall x :: x in s.sequences ==> !Rivals(s.sequences[x], s'.sequences[sid])
    ensures Inv(s')
  {
    forall x | x in s'.sequences ensures SequenceInv(s', x) {
      if x != sid {
        assert Untouched(s, s', x);
        UntouchedKeepsInv(s, s', x);
      }
    }
    forall r | r in s'.reminders ensures s'.reminders[r].sequenceId in s'.sequences {
      TouchKeepsOwners(s, s', sid, r);
    }
    forall i | 0 <= i < |s'.rounds| ensures s'.rounds[i].sequenceId in s'.sequences {
      var x := s'.rounds[i].sequenceId;
      if x != sid {
        assert x in s.sequences && Untouched(s, s', x);
      }
    }
    TouchKeepsUnique(s, s', sid);
  }

  lemma TouchesChain(a: State, b: State, c: State, sid: nat)
    requires Touches(a, b, sid) && Touches(b, c, sid)
    ensures Touches(a, c, sid)
  {
    forall x | x != sid ensures Untouched(a, c, x) {
      assert Untouched(a, b, x) && Untouched(b, c, x);
    }
  }

  /** Only sequence sid and its reminders change, and they stay in order. */
  ghost predicate KeepsSequence(s: State, s': State, sid: nat) {
    Keyed(s') && Touches(s, s', sid) && SequenceInv(s', sid)
  }

  // ----- the pieces of one round -----

  /** The sequence is active and its reminder has just left the pending statuses. */
  ghost predicate Between(s: State, q: Sequence, i: nat) {
    && Keyed(s) && q.id in s.sequences && s.sequences[q.id] == q && q.status.Active?
    && Pending(s, q.id) == {}
    && NoGap(StepsOf(s.rounds, q.id)) && Follows(StepsOf(s.rounds, q.id), i)
  }

  lemma ScheduleStepKeeps(s: State, q: Sequence, schedule: Schedule, i: nat)
    requires Between(s, q, i)
    ensures var s' := ScheduleStep(s, q, schedule, i);
            Keyed(s') && Touches(s, s', q.id) && SequenceInv(s', q.id)
  {
    var s' := ScheduleStep(s, q, schedule, i);
    if i >= |schedule.steps| {
      assert Pending(s', q.id) == Pending(s, q.id);
    } else {
      assert Pending(s', q.id) == Pending(s, q.id) + {s.next};
      assert OnePending(s', q.id, s.next);
    }
  }

  lemma CloseKeeps(s: State, q: Sequence, status: SequenceStatus, pending: ReminderStatus)
    requires Keyed(s) && q.id in s.sequences && s.sequences[q.id] == q
    requires NoGap(StepsOf(s.rounds, q.id)) && !status.Active? && (pending.Dropped? || pending.Revoked?)
    ensures var s' := Close(s, q, status, pending);
            Keyed(s') && Touches(s, s', q.id) && SequenceInv(s', q.id)
  {
    var s' := Close(s, q, status, pending);
    assert Pending(s', q.id) == {};
    forall x | x != q.id ensures Untouched(s, s', x) {
    }
  }

  ghost predicate Dispatchable(s: State, r: Reminder, q: Sequence) {
    && Keyed(s) && q.id in s.sequences && s.sequences[q.id] == q && q.status.Active?
    && SequenceInv(s, q.id)
    && IsStored(s, r) && r.Due() && r.sequenceId == q.id
  }

  predicate IsStored(s: State, r: Reminder) {
    r.id in s.reminders && s.reminders[r.id] == r
  }

  lemma SoleReminder(s: State, r: Reminder, q: Sequence)
    requires Dispatchable(s, r, q)
    ensures OnePending(s, q.id, r.id)
  {
    var p :| OnePending(s, q.id, p);
    assert r.id in Pending(s, q.id);
  }

  lemma RoundKeepsOrder(s: State, r: Reminder, q: Sequence, tick: Tick)
    requires Dispatchable(s, r, q)
    ensures var steps := StepsOf(s.rounds + [Round(r.sequenceId, r.step, tick.at)], q.id);
            NoGap(steps) && Follows(steps, r.step) && Follows(steps, r.step + 1)
  {
    SoleReminder(s, r, q);
  }

  lemma LoggedBetween(s: State, r: Reminder, q: Sequence, r': Reminder, tick: Tick)
    requires Dispatchable(s, r, q) && r'.id == r.id && r'.sequenceId == r.sequenceId && !r'.Due()
    ensures Between(Logged(s, r, r', tick), q, r.step + 1)
  {
    SoleReminder(s, r, q);
    RoundKeepsOrder(s, r, q, tick);
    var s' := Logged(s, r, r', tick);
    assert forall x :: x in Pending(s', q.id) ==> x in Pending(s, q.id);
    assert Pending(s', q.id) == {};
  }

  /** Logging a round of one sequence leaves every other sequence as it was. */
  lemma LoggedElsewhere(s: State, r: Reminder, q: Sequence, r': Reminder, tick: Tick, x: nat)
    requires IsStored(s, r) && r.sequenceId == q.id && r'.id == r.id && r'.sequenceId == r.sequenceId && x != q.id
    ensures Untouched(s, Logged(s, r, r', tick), x)
  {
    assert (s.rounds + [Round(r.sequenceId, r.step, tick.at)])[..|s.rounds|] == s.rounds;
  }

  lemma LoggedTouches(s: State, r: Reminder, q: Sequence, r': Reminder, tick: Tick)
    requires Dispatchable(s, r, q) && r'.id == r.id && r'.sequenceId == r.sequenceId
    ensures Touches(s, Logged(s, r, r', tick), q.id)
  {
    forall x | x != q.id ensures Untouched(s, Logged(s, r, r', tick), x) {
      LoggedElsewhere(s, r, q, r', tick, x);
    }
  }

  lemma RetryKeeps(s: State, r: Reminder, q: Sequence, r': Reminder, tick: Tick)
    requires Dispatchable(s, r, q)
    requires r'.id == r.id && r'.sequenceId == r.sequenceId && r'.Due() && r'.step == r.step
    ensures KeepsSequence(s, Logged(s, r, r', tick), q.id)
  {
    SoleReminder(s, r, q);
    RoundKeepsOrder(s, r, q, tick);
    LoggedTouches(s, r, q, r', tick);
    var s' := Logged(s, r, r', tick);
    assert Pending(s', q.id) == Pending(s, q.id);
    assert OnePending(s', q.id, r.id);
  }

  /** The round settles the reminder and the next step is scheduled. */
  lemma AdvanceKeeps(s: State, r: Reminder, q: Sequence, r': Reminder, schedule: Schedule, tick: Tick)
    requires Dispatchable(s, r, q) && r'.id == r.id && r'.sequenceId == r.sequenceId && !r'.Due()
    ensures KeepsSequence(s, ScheduleStep(Logged(s, r, r', tick), q, schedule, r.step + 1), q.id)
  {
    var mid := Logged(s, r, r', tick);
    LoggedTouches(s, r, q, r', tick);
    LoggedBetween(s, r, q, r', tick);
    ScheduleStepKeeps(mid, q, schedule, r.step + 1);
    TouchesChain(s, mid, ScheduleStep(mid, q, schedule, r.step + 1), q.id);
  }

  lemma EscalateKeeps(s: State, r: Reminder, q: Sequence, tick: Tick)
    requires Dispatchable(s, r, q)
    ensures KeepsSequence(s, Close(Logged(s, r, r.(status := Sent), tick), q, Escalated, Revoked), q.id)
  {
    var mid := Logged(s, r, r.(status := Sent), tick);
    LoggedTouches(s, r, q, r.(status := Sent), tick);
    LoggedBetween(s, r, q, r.(status := Sent), tick);
    CloseKeeps(mid, q, Escalated, Revoked);
    TouchesChain(s, mid, Close(mid, q, Escalated, Revoked), q.id);
  }

  lemma FailureKeeps(s: State, r: Reminder, q: Sequence, schedule: Schedule, tick: Tick, s': State)
    requires Dispatchable(s, r, q) && s' == HandleFailure(s, r, q, schedule, tick)
    ensures KeepsSequence(s, s', q.id)
  {
    if r.attempts + 1 < schedule.maxAttempts {
      assert s' == Logged(s, r, Retried(r, tick), tick);
      RetryKeeps(s, r, q, Retried(r, tick), tick);
    } else {
      assert s' == ScheduleStep(Logged(s, r, GivenUp(r), tick), q, schedule, r.step + 1);
      AdvanceKeeps(s, r, q, GivenUp(r), schedule, tick);
    }
  }

  /** One round of one reminder keeps its own sequence in order and leaves every other alone. */
  lemma DispatchKeeps(s: State, r: Reminder, q: Sequence, schedule: Schedule, tick: Tick, s': State)
    requires Dispatchable(s, r, q) && s' == DispatchReminder(s, r, q, schedule, tick)
    ensures KeepsSequence(s, s', q.id)
  {
    if RoundFails(r, q, tick.ok) {
      FailureKeeps(s, r, q, schedule, tick, s');
    } else if r.escalate {
      assert s' == Close(Logged(s, r, r.(status := Sent), tick), q, Escalated, Revoked);
      EscalateKeeps(s, r, q, tick);
    } else {
      assert s' == ScheduleStep(Logged(s, r, r.(status := Sent), tick), q, schedule, r.step + 1);
      AdvanceKeeps(s, r, q, r.(status := Sent), schedule, tick);
    }
  }
}
