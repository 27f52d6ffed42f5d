/**
 The two-level config cache over any number of service instances
 (app/services/cms/cache_redis.py, with the reads and writes of app/services/cms/service.py).

 RedisConfigCache holds the in-process half; its methods are the stretches of code between
 two suspension points. The step system below runs any number of them against one shared
 key/value store, one versioned store and one clock. Invalidation messages may be lost,
 late or repeated.
 */
module TwoLevelCache {
  import opened Shared
  import opened CmsTypes

  const CLEAR := "*"

  function OnMessage(l1: Entries, message: string): Entries {
    if message == CLEAR then map[] else l1 - {message}
  }

  class RedisConfigCache {
    var l1: Entries
    const ttl: real

    constructor (ttl: real)
      ensures this.ttl == ttl && l1 == map[]
    {
      this.ttl := ttl;
      l1 := map[];
    }

    /** get, up to the wait for the shared store. */
    method Lookup(id: string, now: real) returns (r: Option<ConfigRecord>)
      ensures r == Hit(l1, id, now)
      ensures r == if id in l1 && now < l1[id].expires then Some(l1[id].record) else None
    {
      r := None;
      if id in l1 && l1[id].expires > now {
        r := Some(l1[id].record);
      }
    }

    /** get, once the shared store has answered raw. */
    method FinishGet(id: string, raw: Option<ConfigRecord>, now: real) returns (r: Option<ConfigRecord>)
      modifies this
      ensures r == raw
      ensures l1 == if raw.None? then old(l1) - {id} else Filled(old(l1), id, raw.value, now, ttl)
    {
      if raw.None? {
        l1 := l1 - {id};
        return None;
      }
      l1 := l1[id := Entry(raw.value, now + ttl)];
      return raw;
    }

    /** set, up to the write to the shared store. */
    method SetLocal(id: string, record: ConfigRecord, now: real)
      modifies this
      ensures l1 == Filled(old(l1), id, record, now, ttl)
      ensures l1 == old(l1)[id := Entry(record, now + ttl)]
    {
      l1 := l1[id := Entry(record, now + ttl)];
    }

    /** invalidate, up to the delete in the shared store. */
    method InvalidateLocal(id: string)
      modifies this
      ensures l1 == old(l1) - {id}
    {
      l1 := l1 - {id};
    }

    method ClearLocal()
      modifies this
      ensures l1 == map[]
    {
      l1 := map[];
    }

    method HandleMessage(message: string)
      modifies this
      ensures l1 == OnMessage(old(l1), message)
      ensures l1 == if message == CLEAR then map[] else old(l1) - {message}
    {
      if message == CLEAR {
        l1 := map[];
      } else {
        l1 := l1 - {message};
      }
    }
  }

  // ----- the whole system -----

  /** One write of a key in the versioned store; None is a delete. */
  datatype Write = Write(record: Option<ConfigRecord>, at: real)

  datatype Stage =
    | AskShared                                        // L1 missed
    | SharedSaid(raw: Option<ConfigRecord>, at: real)  // the shared store has answered
    | AskStore                                         // L2 missed too
    | StoreSaid(record: ConfigRecord, at: real)        // the versioned store has answered
    | AskSet(record: ConfigRecord, at: real)           // L1 filled, L2 write not done yet

  /** One read in flight on one instance. */
  datatype Task = Task(instance: nat, id: string, stage: Stage)

  datatype Return = Return(instance: nat, id: string, record: ConfigRecord, at: real)

  datatype State = State(
    now: real,
    store: map<string, seq<Write>>,
    l2: map<string, Entry>,
    l1: map<nat, Entries>,
    tasks: map<nat, Task>,
    returned: seq<Return>)

  /** ttl of both levels, and the longest a read may be held up between the answer of the shared
      store and the L1 fill, or between the answer of the versioned store and the L2 write. */
  datatype Timing = Timing(ttl: real, sharedGap: real, storeGap: real) {
    predicate Valid() {
      ttl > 0.0 && sharedGap >= 0.0 && storeGap >= 0.0
    }

    function Bound(): real {
      2.0 * ttl + sharedGap + storeGap
    }
  }

  const START := State(0.0, map[], map[], map[], map[], [])

  datatype Step =
    | Get(t: nat, instance: nat, id: string)
    | SharedReplies(t: nat)
    | Resume(t: nat)
    | StoreReplies(t: nat)
    | FillLocal(t: nat)
    | SetShared(t: nat, life: real)                    // int(ttl) or less of it
    | Abort(t: nat)
    | SaveWrite(id: string, record: Option<ConfigRecord>)
    | DeleteShared(id: string)
    | Message(instance: nat, message: string)          // invalidate, clear, or a broadcast arriving
    | Advance(dt: real)

  function LocalOf(s: State, instance: nat): Entries {
    if instance in s.l1 then s.l1[instance] else map[]
  }

  function Current(writes: seq<Write>): Option<ConfigRecord> {
    if writes == [] then None else writes[|writes| - 1].record
  }

  function WritesOf(s: State, id: string): seq<Write> {
    if id in s.store then s.store[id] else []
  }

  predicate Timely(task: Task, now: real, timing: Timing) {
    match task.stage
    case SharedSaid(_, at) => now <= at + timing.sharedGap
    case StoreSaid(_, at) => now <= at + timing.storeGap
    case AskSet(_, at) => now <= at + timing.storeGap
    case _ => true
  }

  ghost predicate Enabled(s: State, step: Step, timing: Timing) {
    match step
    case Get(t, _, _) => t !in s.tasks
    case SharedReplies(t) => t in s.tasks && s.tasks[t].stage.AskShared?
    case Resume(t) => t in s.tasks && s.tasks[t].stage.SharedSaid?
    case StoreReplies(t) => t in s.tasks && s.tasks[t].stage.AskStore?
    case FillLocal(t) => t in s.tasks && s.tasks[t].stage.StoreSaid?
    case SetShared(t, life) => t in s.tasks && s.tasks[t].stage.AskSet? && life <= timing.ttl
    case Abort(t) => t in s.tasks
    case SaveWrite(_, _) => true
    case DeleteShared(_) => true
    case Message(_, _) => true
    case Advance(dt) =>
      dt >= 0.0 && forall t :: t in s.tasks ==> Timely(s.tasks[t], s.now + dt, timing)
  }

  function Goto(s: State, t: nat, stage: Stage): State
    requires t in s.tasks
  {
    s.(tasks := s.tasks[t := s.tasks[t].(stage := stage)])
  }

  function Apply(s: State, step: Step, timing: Timing): State
    requires Enabled(s, step, timing)
  {
    match step
    case Get(t, i, id) =>
      var hit := Hit(LocalOf(s, i), id, s.now);
      if hit.Some? then s.(returned := s.returned + [Return(i, id, hit.value, s.now)])
      else s.(tasks := s.tasks[t := Task(i, id, AskShared)])
    case SharedReplies(t) => Goto(s, t, SharedSaid(Hit(s.l2, s.tasks[t].id, s.now), s.now))
    case Resume(t) => ApplyResume(s, t, timing)
    case StoreReplies(t) =>
      var current := Current(WritesOf(s, s.tasks[t].id));
      if current.Some? then Goto(s, t, StoreSaid(current.value, s.now)) else s.(tasks := s.tasks - {t})
    case FillLocal(t) =>
      var task := s.tasks[t];
      Goto(s, t, AskSet(task.stage.record, task.stage.at)).(
        l1 := s.l1[task.instance := Filled(LocalOf(s, task.instance), task.id, task.stage.record, s.now, timing.ttl)])
    case SetShared(t, life) =>
      var task := s.tasks[t];
      s.(l2 := s.l2[task.id := Entry(task.stage.record, s.now + life)],
         tasks := s.tasks - {t},
         returned := s.returned + [Return(task.instance, task.id, task.stage.record, s.now)])
    case Abort(t) => s.(tasks := s.tasks - {t})
    case SaveWrite(id, record) => s.(store := s.store[id := WritesOf(s, id) + [Write(record, s.now)]])
    case DeleteShared(id) => s.(l2 := s.l2 - {id})
    case Message(i, message) => s.(l1 := s.l1[i := OnMessage(LocalOf(s, i), message)])
    case Advance(dt) => s.(now := s.now + dt)
  }

  function ApplyResume(s: State, t: nat, timing: Timing): State
    requires t in s.tasks && s.tasks[t].stage.SharedSaid?
  {
    var task := s.tasks[t];
    var l1 := LocalOf(s, task.instance);
    if task.stage.raw.None? then
      Goto(s, t, AskStore).(l1 := s.l1[task.instance := l1 - {task.id}])
    else
      var record := task.stage.raw.value;
      s.(l1 := s.l1[task.instance := Filled(l1, task.id, record, s.now, timing.ttl)],
         tasks := s.tasks - {t},
         returned := s.returned + [Return(task.instance, task.id, record, s.now)])
  }

  /** Step i leads from tr[i] to tr[i + 1]. */
  ghost predicate Leads(tr: seq<State>, steps: seq<Step>, timing: Timing) {
    && |tr| == |steps| + 1
    && forall i :: 0 <= i < |steps| ==>
                     Enabled(tr[i], steps[i], timing) && tr[i + 1] == Apply(tr[i], steps[i], timing)
  }

  ghost predicate IsRun(tr: seq<State>, steps: seq<Step>, timing: Timing) {
    Leads(tr, steps, timing) && tr[0] == START
  }

  // ----- staleness -----

  /** record was the current value of the key at time x. */
  ghost predicate WasCurrent(writes: seq<Write>, record: ConfigRecord, x: real) {
    exists i :: 0 <= i < |writes| && CurrentFrom(writes, i, record, x)
  }

  predicate CurrentFrom(writes: seq<Write>, i: nat, record: ConfigRecord, x: real)
    requires i < |writes|
  {
    writes[i].record == Some(record) && writes[i].at <= x && (i + 1 < |writes| ==> x <= writes[i + 1].at)
  }

  /** record was the current value of the key at some time later than since. */
  ghost predicate CurrentAfter(s: State, id: string, record: ConfigRecord, since: real) {
    exists x :: since < x <= s.now && WasCurrent(WritesOf(s, id), record, x)
  }

  /** The same, for a time no earlier than since. */
  ghost predicate CurrentSince(s: State, id: string, record: ConfigRecord, since: real) {
    exists x :: since <= x <= s.now && WasCurrent(WritesOf(s, id), record, x)
  }

  ghost predicate TaskInv(s: State, task: Task, timing: Timing) {
    && Timely(task, s.now, timing)
    && match task.stage
       case SharedSaid(Some(record), at) =>
         at <= s.now && CurrentAfter(s, task.id, record, at - timing.ttl - timing.storeGap)
       case StoreSaid(record, at) => at <= s.now && CurrentSince(s, task.id, record, at)
       case AskSet(record, at) => at <= s.now && CurrentSince(s, task.id, record, at)
       case _ => true
  }

  ghost predicate StoreInv(s: State) {
    forall id, i :: 0 <= i < |WritesOf(s, id)| ==> WritesOf(s, id)[i].at <= s.now
  }

  ghost predicate SharedInv(s: State, timing: Timing) {
    forall id :: id in s.l2 ==> SharedEntryInv(s, id, s.l2[id], timing)
  }

  ghost predicate SharedEntryInv(s: State, id: string, e: Entry, timing: Timing) {
    CurrentSince(s, id, e.record, e.expires - timing.ttl - timing.storeGap)
  }

  ghost predicate LocalInv(s: State, timing: Timing) {
    forall k, id :: id in LocalOf(s, k) ==> LocalEntryInv(s, id, LocalOf(s, k)[id], timing)
  }

  ghost predicate LocalEntryInv(s: State, id: string, e: Entry, timing: Timing) {
    CurrentSince(s, id, e.record, e.expires - timing.Bound())
  }

  ghost predicate TasksInv(s: State, timing: Timing) {
    forall t :: t in s.tasks ==> TaskInv(s, s.tasks[t], timing)
  }

  ghost predicate LogInv(s: State, timing: Timing) {
    forall i :: 0 <= i < |s.returned| ==> ReturnInv(s, s.returned[i], timing)
  }

  ghost predicate Inv(s: State, timing: Timing) {
    StoreInv(s) && SharedInv(s, timing) && LocalInv(s, timing) && TasksInv(s, timing) && LogInv(s, timing)
  }

  ghost predicate ReturnInv(s: State, r: Return, timing: Timing) {
    r.at <= s.now && CurrentAfter(s, r.id, r.record, r.at - timing.Bound())
  }

  // ----- preservation -----

  /** Time does not go back and the store only grows, by writes made now. */
  ghost predicate Grows(s: State, s': State) {
    && s.now <= s'.now
    && forall id :: WritesOf(s', id) == WritesOf(s, id) || GrewBy(WritesOf(s, id), WritesOf(s', id), s.now)
  }

  predicate GrewBy(a: seq<Write>, b: seq<Write>, now: real) {
    |b| == |a| + 1 && b[..|a|] == a && b[|a|].at == now
  }

  lemma StepGrows(s: State, step: Step, timing: Timing)
    requires Enabled(s, step, timing)
    ensures Grows(s, Apply(s, step, timing))
  {
  }

  lemma WasCurrentKept(s: State, s': State, id: string, record: ConfigRecord, x: real)
    requires Grows(s, s') && x <= s.now && WasCurrent(WritesOf(s, id), record, x)
    ensures WasCurrent(WritesOf(s', id), record, x)
  {
    var a, b := WritesOf(s, id), WritesOf(s', id);
    var i :| 0 <= i < |a| && CurrentFrom(a, i, record, x);
    if a != b {
      assert b[i] == b[..|a|][i] == a[i];
      assert i + 1 < |a| ==> b[i + 1] == b[..|a|][i + 1] == a[i + 1];
    }
    assert CurrentFrom(b, i, record, x);
  }

  lemma SinceKept(s: State, s': State, id: string, record: ConfigRecord, since: real, weaker: real)
    requires Grows(s, s') && CurrentSince(s, id, record, since) && weaker <= since
    ensures CurrentSince(s', id, record, weaker)
  {
    var x :| since <= x <= s.now && WasCurrent(WritesOf(s, id), record, x);
    WasCurrentKept(s, s', id, record, x);
  }

  lemma AfterKept(s: State, s': State, id: string, record: ConfigRecord, since: real, weaker: real)
    requires Grows(s, s') && CurrentAfter(s, id, record, since) && weaker <= since
    ensures CurrentAfter(s', id, record, weaker)
  {
    var x :| since < x <= s.now && WasCurrent(WritesOf(s, id), record, x);
    WasCurrentKept(s, s', id, record, x);
  }

  /** An entry read before it expires is less than its age limit old. */
  lemma UnexpiredIsAfter(s: State, id: string, record: ConfigRecord, expires: real, age: real)
    requires CurrentSince(s, id, record, expires - age) && s.now < expires
    ensures CurrentAfter(s, id, record, s.now - age)
  {
    var x :| expires - age <= x <= s.now && WasCurrent(WritesOf(s, id), record, x);
  }

  /** What the store answers is current right now. */
  lemma CurrentNow(s: State, id: string)
    requires forall i :: 0 <= i < |WritesOf(s, id)| ==> WritesOf(s, id)[i].at <= s.now
    requires Current(WritesOf(s, id)).Some?
    ensures CurrentSince(s, id, Current(WritesOf(s, id)).value, s.now)
  {
    assert CurrentFrom(WritesOf(s, id), |WritesOf(s, id)| - 1, Current(WritesOf(s, id)).value, s.now);
    assert WasCurrent(WritesOf(s, id), Current(WritesOf(s, id)).value, s.now);
  }

  lemma TaskKept(s: State, s': State, task: Task, timing: Timing)
    requires Grows(s, s') && TaskInv(s, task, timing) && Timely(task, s'.now, timing)
    ensures TaskInv(s', task, timing)
  {
    match task.stage
    case SharedSaid(Some(record), at) =>
      var since := at - timing.ttl - timing.storeGap;
      AfterKept(s, s', task.id, record, since, since);
    case StoreSaid(record, at) => SinceKept(s, s', task.id, record, at, at);
    case AskSet(record, at) => SinceKept(s, s', task.id, record, at, at);
    case _ =>
  }

  lemma StepKeepsStore(s: State, step: Step, timing: Timing)
    requires StoreInv(s) && Enabled(s, step, timing)
    ensures StoreInv(Apply(s, step, timing))
  {
    StepGrows(s, step, timing);
    var s' := Apply(s, step, timing);
    forall id, i | 0 <= i < |WritesOf(s', id)| ensures WritesOf(s', id)[i].at <= s'.now {
      if WritesOf(s', id) != WritesOf(s, id) && i < |WritesOf(s, id)| {
        assert WritesOf(s', id)[..|WritesOf(s, id)|][i] == WritesOf(s, id)[i];
      }
    }
  }

  lemma StepKeepsShared(s: State, step: Step, timing: Timing)
    requires timing.Valid() && SharedInv(s, timing) && TasksInv(s, timing) && Enabled(s, step, timing)
    ensures SharedInv(Apply(s, step, timing), timing)
  {
    StepGrows(s, step, timing);
    var s' := Apply(s, step, timing);
    forall id | id in s'.l2 ensures SharedEntryInv(s', id, s'.l2[id], timing) {
      var e := s'.l2[id];
      if id in s.l2 && e == s.l2[id] {
        assert SharedEntryInv(s, id, e, timing);
        var since := e.expires - timing.ttl - timing.storeGap;
        SinceKept(s, s', id, e.record, since, since);
      } else {
        var task := s.tasks[step.t];
        assert TaskInv(s, task, timing);
        SinceKept(s, s', id, e.record, task.stage.at, e.expires - timing.ttl - timing.storeGap);
      }
    }
  }

  /** The entry a step puts into an in-process cache is young enough. */
  lemma NewLocalEntry(s: State, step: Step, timing: Timing)
    requires timing.Valid() && TasksInv(s, timing) && Enabled(s, step, timing)
    requires step.FillLocal? || (step.Resume? && s.tasks[step.t].stage.raw.Some?)
    ensures var task := s.tasks[step.t];
            var record := if step.FillLocal? then task.stage.record else task.stage.raw.value;
            LocalEntryInv(s, task.id, Entry(record, s.now + timing.ttl), timing)
  {
    var task := s.tasks[step.t];
    assert TaskInv(s, task, timing);
    if step.FillLocal? {
      SinceKept(s, s, task.id, task.stage.record, task.stage.at, s.now + timing.ttl - timing.Bound());
    } else {
      var since := task.stage.at - timing.ttl - timing.storeGap;
      assert CurrentAfter(s, task.id, task.stage.raw.value, since);
      assert s.now + timing.ttl - timing.Bound() <= since;
    }
  }

  lemma StepKeepsLocal(s: State, step: Step, timing: Timing)
    requires timing.Valid() && LocalInv(s, timing) && TasksInv(s, timing) && Enabled(s, step, timing)
    ensures LocalInv(Apply(s, step, timing), timing)
  {
    StepGrows(s, step, timing);
    var s' := Apply(s, step, timing);
    forall k, id | id in LocalOf(s', k) ensures LocalEntryInv(s', id, LocalOf(s', k)[id], timing) {
      var e := LocalOf(s', k)[id];
      if !(id in LocalOf(s, k) && e == LocalOf(s, k)[id]) {
        NewLocalEntry(s, step, timing);
      }
      assert LocalEntryInv(s, id, e, timing);
      SinceKept(s, s', id, e.record, e.expires - timing.Bound(), e.expires - timing.Bound());
    }
  }

  lemma SharedAnswer(s: State, t: nat, timing: Timing)
    requires timing.Valid() && SharedInv(s, timing) && t in s.tasks
    ensures TaskInv(s, s.tasks[t].(stage := SharedSaid(Hit(s.l2, s.tasks[t].id, s.now), s.now)), timing)
  {
    var id := s.tasks[t].id;
    if Hit(s.l2, id, s.now).Some? {
      assert SharedEntryInv(s, id, s.l2[id], timing);
      UnexpiredIsAfter(s, id, s.l2[id].record, s.l2[id].expires, timing.ttl + timing.storeGap);
    }
  }

  /** The task a step moves satisfies the task invariant where it arrives. */
  lemma MovedTask(s: State, step: Step, t: nat, timing: Timing)
    requires timing.Valid() && Inv(s, timing) && Enabled(s, step, timing)
    requires t in s.tasks && t in Apply(s, step, timing).tasks && Apply(s, step, timing).tasks[t] != s.tasks[t]
    ensures TaskInv(s, Apply(s, step, timing).tasks[t], timing)
  {
    assert TaskInv(s, s.tasks[t], timing);
    match step
    case SharedReplies(_) => SharedAnswer(s, t, timing);
    case StoreReplies(_) => CurrentNow(s, s.tasks[t].id);
    case _ =>
  }

  lemma StepKeepsTasks(s: State, step: Step, timing: Timing)
    requires timing.Valid() && Inv(s, timing) && Enabled(s, step, timing)
    ensures TasksInv(Apply(s, step, timing), timing)
  {
    StepGrows(s, step, timing);
    var s' := Apply(s, step, timing);
    forall t | t in s'.tasks ensures TaskInv(s', s'.tasks[t], timing) {
      var task := s'.tasks[t];
      if t in s.tasks {
        assert TaskInv(s, s.tasks[t], timing);
        if task != s.tasks[t] {
          MovedTask(s, step, t, timing);
        }
        TaskKept(s, s', task, timing);
      }
    }
  }

  /** The bound, for one answer: a record handed out now was current less than Bound() ago. */
  lemma AnswerIsFresh(s: State, step: Step, timing: Timing)
    requires timing.Valid() && Inv(s, timing) && Enabled(s, step, timing)
    requires Apply(s, step, timing).returned != s.returned
    ensures |Apply(s, step, timing).returned| == |s.returned| + 1
    ensures ReturnInv(s, Apply(s, step, timing).returned[|s.returned|], timing)
  {
    match step
    case Get(_, i, id) =>
      var e := LocalOf(s, i)[id];
      assert LocalEntryInv(s, id, e, timing);
      UnexpiredIsAfter(s, id, e.record, e.expires, timing.Bound());
    case Resume(t) =>
      var task := s.tasks[t];
      assert TaskInv(s, task, timing);
      var since := task.stage.at - timing.ttl - timing.storeGap;
      assert s.now - timing.Bound() <= since;
      AfterKept(s, s, task.id, task.stage.raw.value, since, s.now - timing.Bound());
    case SetShared(t, _) =>
      var task := s.tasks[t];
      assert TaskInv(s, task, timing);
      assert s.now - timing.Bound() < task.stage.at;
      var x :| task.stage.at <= x <= s.now && WasCurrent(WritesOf(s, task.id), task.stage.record, x);
  }

  lemma StepKeepsLog(s: State, step: Step, timing: Timing)
    requires timing.Valid() && Inv(s, timing) && Enabled(s, step, timing)
    ensures LogInv(Apply(s, step, timing), timing)
  {
    StepGrows(s, step, timing);
    var s' := Apply(s, step, timing);
    if s'.returned != s.returned {
      AnswerIsFresh(s, step, timing);
    }
    forall i | 0 <= i < |s'.returned| ensures ReturnInv(s', s'.returned[i], timing) {
      var r := s'.returned[i];
      assert ReturnInv(s, r, timing);
      AfterKept(s, s', r.id, r.record, r.at - timing.Bound(), r.at - timing.Bound());
    }
  }

  lemma {:induction false} RunsKeepInv(tr: seq<State>, steps: seq<Step>, timing: Timing, i: nat)
    requires timing.Valid() && IsRun(tr, steps, timing) && i < |tr|
    ensures Inv(tr[i], timing)
  {
    if i > 0 {
      var s, step := tr[i - 1], steps[i - 1];
      RunsKeepInv(tr, steps, timing, i - 1);
      StepKeepsStore(s, step, timing);
      StepKeepsShared(s, step, timing);
      StepKeepsLocal(s, step, timing);
      StepKeepsTasks(s, step, timing);
      StepKeepsLog(s, step, timing);
    }
  }

  /**
   Bounded staleness, for any number of instances, any interleaving and any loss of messages:
   every record returned at time t was the store's current value of its key at some time later
   than t minus twice the TTL minus the two gaps.
   */
  lemma BoundedStaleness(tr: seq<State>, steps: seq<Step>, timing: Timing, i: nat, k: nat)
    requires timing.Valid() && IsRun(tr, steps, timing) && i < |tr| && k < |tr[i].returned|
    ensures var r := tr[i].returned[k];
            r.at <= tr[i].now && CurrentAfter(tr[i], r.id, r.record, r.at - timing.Bound())
  {
    RunsKeepInv(tr, steps, timing, i);
    assert ReturnInv(tr[i], tr[i].returned[k], timing);
  }

  const FIVE_MINUTES := 300.0
  const DEFAULT_TTL_SECONDS := 60.0

  /** The five-minute propagation requirement, with the default TTL: once a value has been
      superseded for five minutes no instance returns it any more. */
  lemma PropagatesWithinFiveMinutes(tr: seq<State>, steps: seq<Step>, timing: Timing, i: nat, k: nat, w: nat)
    requires timing.Valid() && IsRun(tr, steps, timing) && i < |tr| && k < |tr[i].returned|
    requires timing.ttl == DEFAULT_TTL_SECONDS && timing.sharedGap + timing.storeGap <= 180.0
    requires var writes := WritesOf(tr[i], tr[i].returned[k].id);
             && w < |writes| && writes[w].at + FIVE_MINUTES <= tr[i].returned[k].at
    ensures exists v :: w <= v < |WritesOf(tr[i], tr[i].returned[k].id)| &&
                        WritesOf(tr[i], tr[i].returned[k].id)[v].record == Some(tr[i].returned[k].record)
  {
    BoundedStaleness(tr, steps, timing, i, k);
    RunsAreChronological(tr, steps, timing, i, tr[i].returned[k].id);
    var r, writes := tr[i].returned[k], WritesOf(tr[i], tr[i].returned[k].id);
    var x :| r.at - timing.Bound() < x <= tr[i].now && WasCurrent(writes, r.record, x);
    assert forall j :: 0 < j <= w ==> writes[j].at < x;
    var v :| 0 <= v < |writes| && CurrentFrom(writes, v, r.record, x);
  }

  ghost predicate Chronological(writes: seq<Write>) {
    forall a, b :: 0 <= a <= b < |writes| ==> writes[a].at <= writes[b].at
  }

  lemma {:induction false} RunsAreChronological(tr: seq<State>, steps: seq<Step>, timing: Timing, i: nat, id: string)
    requires timing.Valid() && IsRun(tr, steps, timing) && i < |tr|
    ensures Chronological(WritesOf(tr[i], id))
  {
    if i > 0 {
      RunsAreChronological(tr, steps, timing, i - 1, id);
      RunsKeepInv(tr, steps, timing, i - 1);
      StepGrows(tr[i - 1], steps[i - 1], timing);
      StaysChronological(WritesOf(tr[i - 1], id), WritesOf(tr[i], id), tr[i - 1].now);
    }
  }

  lemma StaysChronological(a: seq<Write>, b: seq<Write>, now: real)
    requires Chronological(a) && forall j :: 0 <= j < |a| ==> a[j].at <= now
    requires b == a || GrewBy(a, b, now)
    ensures Chronological(b)
  {
    if b != a {
      assert forall j :: 0 <= j < |a| ==> b[j] == b[..|a|][j] == a[j];
    }
  }
}
