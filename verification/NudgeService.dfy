/** The nudge service over its in-memory store (app/services/nudge/service.py). */
module NudgeService {
  import opened Shared
  import opened Nudge

  class Service {
    var sequences: map<nat, Sequence>
    var reminders: map<nat, Reminder>
    var next: nat
    ghost var rounds: seq<Round>

    ghost function View(): State
      reads this
    {
      State(sequences, reminders, next, rounds)
    }

    constructor ()
      ensures View() == EMPTY_STORE
    {
      sequences, reminders, next, rounds := map[], map[], 0, [];
    }

    method FindActiveSequence(reason: string, ref: string) returns (found: Option<nat>)
      ensures found.Some? ==> IsActiveFor(View(), found.value, reason, ref)
      ensures found.None? ==> !HasActive(View(), reason, Some(ref))
    {
      var todo := sequences.Keys;
      while todo != {}
        invariant todo <= sequences.Keys
        invariant forall sid :: IsActiveFor(View(), sid, reason, ref) ==> sid in todo
        decreases todo
      {
        var sid :| sid in todo;
        var q := sequences[sid];
        if q.reason == reason && q.targetRef == Some(ref) && q.status.Active? {
          return Some(sid);
        }
        todo := todo - {sid};
      }
      return None;
    }

    method StartSequence(cfg: Config, reason: string, targets: map<Channel, string>,
                         ref: Option<string>, baseTime: real) returns (r: Outcome<Sequence>)
      requires Keyed(View())
      modifies this
      ensures View() == Start(old(View()), cfg, reason, targets, ref, baseTime)
      ensures r.ScheduleNotFound? <==> !HasActive(old(View()), reason, ref) && reason !in cfg
      ensures r.Done? ==> r.value.id in sequences && r.value == sequences[r.value.id]
      ensures HasActive(old(View()), reason, ref) ==>
                r.Done? && IsActiveFor(old(View()), r.value.id, reason, ref.value)
      ensures HasActive(old(View()), reason, ref) <==>
                ref.Some? && exists sid :: sid in old(sequences) && old(sequences)[sid].status.Active? &&
                                           old(sequences)[sid].reason == reason && old(sequences)[sid].targetRef == ref
      ensures r.ScheduleNotFound? || HasActive(old(View()), reason, ref) ==> View() == old(View())
      ensures !HasActive(old(View()), reason, ref) && reason in cfg ==>
                var id, steps := old(next), cfg[reason].steps;
                && r == Done(Sequence(id, reason, targets, ref, if steps == [] then Completed else Active, 0, baseTime))
                && sequences == old(sequences)[id := r.value]
                && reminders == if steps == [] then old(reminders) else
                                  old(reminders)[id + 1 := Reminder(id + 1, id, 0, baseTime + steps[0].offset,
                                    steps[0].channels, steps[0].template, steps[0].escalate, Scheduled, 0)]
    {
      assert forall sid ::
          (ref.Some? && sid in sequences && sequences[sid].status.Active? && sequences[sid].reason == reason &&
           sequences[sid].targetRef == ref) ==> IsActiveFor(View(), sid, reason, ref.value);
      if ref.Some? {
        var existing := FindActiveSequence(reason, ref.value);
        if existing.Some? {
          assert IsActiveFor(View(), existing.value, reason, ref.value);
          return Done(sequences[existing.value]);
        }
      }
      if reason !in cfg {
        return ScheduleNotFound;
      }
      var q := Sequence(next, reason, targets, ref, Active, 0, baseTime);
      sequences := sequences[q.id := q];
      next := next + 1;
      ScheduleStepAt(q, cfg[reason], 0);
      return Done(sequences[q.id]);
    }

    method ScheduleStepAt(q: Sequence, schedule: Schedule, i: nat)
      modifies this
      ensures View() == ScheduleStep(old(View()), q, schedule, i)
    {
      if i >= |schedule.steps| {
        sequences := sequences[q.id := q.(status := Completed)];
        return;
      }
      var step := schedule.steps[i];
      var reminder := Reminder(next, q.id, i, q.baseTime + step.offset, step.channels,
                               step.template, step.escalate, Scheduled, 0);
      next := next + 1;
      reminders := reminders[reminder.id := reminder];
      sequences := sequences[q.id := q.(currentStep := i)];
    }

    method ListDue(now: real, limit: nat) returns (due: seq<Reminder>)
      requires Keyed(View())
      ensures IsDueList(View(), now, limit, due)
    {
      due := [];
      var rest := set r | r in reminders && reminders[r].Due() && reminders[r].scheduledFor <= now;
      while rest != {} && |due| < limit
        invariant |due| <= limit
        invariant forall i :: 0 <= i < |due| ==> IsDueNow(View(), now, due[i]) && due[i].id !in rest
        invariant forall i, j :: 0 <= i < j < |due| ==>
                                   due[i].id != due[j].id && due[i].scheduledFor <= due[j].scheduledFor
        invariant forall r :: r in rest ==> r in reminders && IsDueNow(View(), now, reminders[r])
        invariant forall r, i :: r in rest && 0 <= i < |due| ==> due[i].scheduledFor <= reminders[r].scheduledFor
        invariant forall r :: r in reminders && IsDueNow(View(), now, reminders[r]) ==>
                                r in rest || reminders[r] in due
        decreases rest
      {
        var first := Earliest(rest);
        due := due + [reminders[first]];
        rest := rest - {first};
      }
    }

    method Earliest(ids: set<nat>) returns (first: nat)
      requires ids != {} && ids <= reminders.Keys
      ensures first in ids
      ensures forall r :: r in ids ==> reminders[first].scheduledFor <= reminders[r].scheduledFor
    {
      first :| first in ids;
      var todo := ids - {first};
      while todo != {}
        invariant first in ids && todo <= ids
        invariant forall r :: r in ids ==> r in todo || reminders[first].scheduledFor <= reminders[r].scheduledFor
        decreases todo
      {
        var r :| r in todo;
        if reminders[r].scheduledFor < reminders[first].scheduledFor {
          first := r;
        }
        todo := todo - {r};
      }
    }

    /** The worker tick: ticks(i) is what the outside world does in the round of the i-th due reminder. */
    method RunDueNow(cfg: Config, now: real, limit: nat, ticks: nat -> Tick)
        returns (r: Outcome<seq<Reminder>>, ghost due: seq<Reminder>)
      requires Keyed(View())
      modifies this
      ensures IsDueList(old(View()), now, limit, due)
      ensures View() == RunDue(old(View()), cfg, due, seq(|due|, i requires 0 <= i < |due| => ticks(i)))
      ensures r == Processed(old(View()), cfg, due, seq(|due|, i requires 0 <= i < |due| => ticks(i)))
    {
      var found := ListDue(now, limit);
      due := found;
      r := RunDueList(cfg, found, seq(|found|, i requires 0 <= i < |found| => ticks(i)));
    }

    /** Its loop over the snapshot that list_due returned. */
    method RunDueList(cfg: Config, due: seq<Reminder>, ticks: seq<Tick>) returns (r: Outcome<seq<Reminder>>)
      requires |ticks| == |due|
      modifies this
      ensures View() == RunDue(old(View()), cfg, due, ticks)
      ensures r == Processed(old(View()), cfg, due, ticks)
    {
      var processed: seq<Reminder> := [];
      PrefixedLaws([], [], Processed(View(), cfg, due, ticks));
      assert due[0..] == due && ticks[0..] == ticks;
      for i := 0 to |due|
        invariant RunDue(View(), cfg, due[i..], ticks[i..]) == RunDue(old(View()), cfg, due, ticks)
        invariant Prefixed(processed, Processed(View(), cfg, due[i..], ticks[i..])) ==
                  Processed(old(View()), cfg, due, ticks)
      {
        assert due[i..][1..] == due[i + 1..] && ticks[i..][1..] == ticks[i + 1..];
        ghost var attempt := Attempted(View(), cfg, due[i], ticks[i]);
        ghost var next := Process(View(), cfg, due[i], ticks[i]);
        PrefixedLaws(processed, attempt, Processed(next, cfg, due[i + 1..], ticks[i + 1..]));
        var reminder := due[i];
        if reminder.sequenceId !in sequences || !sequences[reminder.sequenceId].status.Active? {
          reminders := reminders[reminder.id := reminder.(status := Dropped)];
          assert processed + attempt == processed;
          continue;
        }
        var q := sequences[reminder.sequenceId];
        if q.reason !in cfg {
          return ScheduleNotFound;
        }
        reminder := DispatchOne(reminder, q, cfg[q.reason], ticks[i]);
        processed := processed + [reminder];
      }
      PrefixedLaws(processed, [], Done([]));
      return Done(processed);
    }

    method DispatchOne(reminder: Reminder, q: Sequence, schedule: Schedule, tick: Tick) returns (after: Reminder)
      modifies this
      ensures View() == DispatchReminder(old(View()), reminder, q, schedule, tick)
      ensures after == RoundResult(reminder, q, schedule, tick)
      ensures var delivered := exists i: nat :: i < |reminder.channels| && Contacts(reminder, q, i) && tick.ok(i);
              var reachable := exists i: nat :: i < |reminder.channels| && Contacts(reminder, q, i);
              after == if delivered || !reachable then reminder.(status := Sent)
                       else if reminder.attempts + 1 < schedule.maxAttempts
                       then reminder.(attempts := reminder.attempts + 1, status := Retrying,
                                      scheduledFor := tick.at + tick.delay)
                       else reminder.(attempts := reminder.attempts + 1, status := Failed)
    {
      var errors, sentAny := 0, false;
      for i := 0 to |reminder.channels|
        invariant errors > 0 <==> exists j: nat :: j < i && Contacts(reminder, q, j) && !tick.ok(j)
        invariant sentAny <==> exists j: nat :: j < i && Contacts(reminder, q, j) && tick.ok(j)
      {
        if reminder.channels[i] in q.targets && q.targets[reminder.channels[i]] != "" {
          if tick.ok(i) {
            sentAny := true;
          } else {
            errors := errors + 1;
          }
        }
      }
      if errors > 0 && !sentAny {
        after := RetryOrFail(reminder, q, schedule, tick);
        return;
      }
      rounds := rounds + [Round(reminder.sequenceId, reminder.step, tick.at)];
      after := reminder.(status := Sent);
      reminders := reminders[after.id := after];
      if reminder.escalate {
        CloseSequence(q, Escalated, Revoked);
        return;
      }
      ScheduleStepAt(q, schedule, reminder.step + 1);
    }

    method RetryOrFail(reminder: Reminder, q: Sequence, schedule: Schedule, tick: Tick) returns (after: Reminder)
      modifies this
      ensures View() == HandleFailure(old(View()), reminder, q, schedule, tick)
      ensures after == if reminder.attempts + 1 < schedule.maxAttempts then Retried(reminder, tick)
                       else GivenUp(reminder)
    {
      rounds := rounds + [Round(reminder.sequenceId, reminder.step, tick.at)];
      after := reminder.(attempts := reminder.attempts + 1);
      if after.attempts < schedule.maxAttempts {
        after := after.(status := Retrying, scheduledFor := tick.at + tick.delay);
        reminders := reminders[after.id := after];
        return;
      }
      after := after.(status := Failed);
      reminders := reminders[after.id := after];
      ScheduleStepAt(q, schedule, reminder.step + 1);
    }

    /** Save the sequence with its final status, then give every pending reminder its own. */
    method CloseSequence(q: Sequence, status: SequenceStatus, pending: ReminderStatus)
      requires pending.Dropped? || pending.Revoked?
      modifies this
      ensures View() == Close(old(View()), q, status, pending)
    {
      sequences := sequences[q.id := q.(status := status)];
      ghost var was := View();
      var todo := set r | r in reminders && reminders[r].sequenceId == q.id && reminders[r].Due();
      while todo != {}
        invariant todo <= Pending(was, q.id)
        invariant sequences == was.sequences && next == was.next && rounds == was.rounds
        invariant reminders.Keys == was.reminders.Keys
        invariant forall r :: r in reminders ==>
                                reminders[r] == if r in Pending(was, q.id) - todo
                                                then was.reminders[r].(status := pending) else was.reminders[r]
        decreases todo
      {
        var r :| r in todo;
        reminders := reminders[r := reminders[r].(status := pending)];
        todo := todo - {r};
      }
      assert reminders == CancelPending(was, q.id, pending).reminders;
    }

    method SuppressSequence(sid: nat) returns (r: Outcome<Sequence>)
      requires Keyed(View())
      modifies this
      ensures View() == Suppress(old(View()), sid)
      ensures sid in old(sequences) && old(sequences[sid]).status.Active? ==>
                && sequences == old(sequences)[sid := old(sequences[sid]).(status := Suppressed)]
                && reminders.Keys == old(reminders.Keys)
                && forall x :: x in reminders ==>
                     reminders[x] == if x in Pending(old(View()), sid) then old(reminders[x]).(status := Dropped)
                                     else old(reminders[x])
      ensures !(sid in old(sequences) && old(sequences[sid]).status.Active?) ==> View() == old(View())
      ensures sequences.Keys == old(sequences.Keys)
      ensures r == if sid in sequences then Done(sequences[sid]) else SequenceNotFound
    {
      if sid !in sequences {
        return SequenceNotFound;
      }
      var q := sequences[sid];
      if !q.status.Active? {
        return Done(q);
      }
      CloseSequence(q, Suppressed, Dropped);
      return Done(sequences[sid]);
    }

    method CancelSequence(sid: nat) returns (r: Outcome<Sequence>)
      requires Keyed(View())
      modifies this
      ensures View() == Cancel(old(View()), sid)
      ensures sid in old(sequences) && old(sequences[sid]).status.Active? ==>
                && sequences == old(sequences)[sid := old(sequences[sid]).(status := Cancelled)]
                && reminders.Keys == old(reminders.Keys)
                && forall x :: x in reminders ==>
                     reminders[x] == if x in Pending(old(View()), sid) then old(reminders[x]).(status := Revoked)
                                     else old(reminders[x])
      ensures !(sid in old(sequences) && old(sequences[sid]).status.Active?) ==> View() == old(View())
      ensures sequences.Keys == old(sequences.Keys)
      ensures r == if sid in sequences then Done(sequences[sid]) else SequenceNotFound
    {
      if sid !in sequences {
        return SequenceNotFound;
      }
      var q := sequences[sid];
      if !q.status.Active? {
        return Done(q);
      }
      CloseSequence(q, Cancelled, Revoked);
      return Done(sequences[sid]);
    }
  }
}
