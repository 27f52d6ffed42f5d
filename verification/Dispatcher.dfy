/**
 Concurrent inbound dispatches as a step system
 (app/services/workflow/dispatcher.py, _dispatch, _resolve_canonical_run, _dispatch_locked).

 A step is one stretch of code between two suspension points. A task is one inbound message.
 live holds the keys whose session points at a non-terminal run.
 */
module Dispatcher {
  import opened Sequences
  import opened LockTable

  datatype Stage =
    | WaitOwn                                      // waiting for the lock of the inbound key
    | ReadOwn                                      // holding it, about to read its own run
    | Reviving                                     // its failed run was flipped back to RUNNING
    | Working                                      // the run of its own key is resumed or started
    | Starting                                     // no run to resume: about to start one of its own
    | Resolve(since: nat)                          // no usable own run: looking at the other channel
    | FetchOther(since: nat, other: Key)           // saw a live run there, about to fetch its lock
    | WaitOther(since: nat, other: Key, ofetch: nat)
    | WorkOther(other: Key, ofetch: nat)           // resuming the canonical run under both locks
    | Ping                                         // canonical lock released, own lock still held

  datatype Task = Task(key: Key, fetch: nat, stage: Stage) {
    /** Own run found unusable, nothing started yet. */
    predicate Crossing() {
      stage.Resolve? || stage.FetchOther? || stage.WaitOther?
    }

    /** Heading for, or waiting at, the lock of another key. */
    predicate Seeking(k: Key) {
      (stage.FetchOther? || stage.WaitOther?) && stage.other == k
    }

    /** The touches whose lock objects this task holds. */
    function Holdings(): set<nat> {
      if stage.WaitOwn? then {}
      else if stage.WorkOther? then {fetch, stage.ofetch}
      else {fetch}
    }

    /** Every touch whose lock object this task holds or is waiting for. */
    function Fetches(): set<nat> {
      if stage.WorkOther? || stage.WaitOther? then {fetch, stage.ofetch} else {fetch}
    }
  }

  datatype State = State(h: seq<Key>, tasks: map<nat, Task>, live: set<Key>, clock: nat)

  const START := State([], map[], {}, 0)

  datatype Action =
    | AcquireOwn
    | OwnLive
    | OwnRevive
    | OwnDead
    | ReviveOk
    | ReviveFailed(leftLive: bool)
    | SetOwn(alive: bool)
    | SeeOther(other: Key)
    | NoOther
    | FetchLock
    | AcquireOther
    | SetOther(alive: bool)
    | ReleaseOther(resumed: bool)

  datatype Step =
    | Begin(t: nat, key: Key)                      // a message arrives and fetches its lock
    | Act(t: nat, action: Action)
    | Finish(t: nat)                               // return a result, releasing the own lock
    | Abort(t: nat)                                // cancelled or raised, at any stage
    | Lockless(key: Key, alive: bool)              // resume_external, which takes no lock

  /** No task but t holds the lock object handed out by touch f. */
  ghost predicate FreeFor(h: seq<Key>, tasks: map<nat, Task>, t: nat, f: nat, max: nat) {
    forall u, g :: u in tasks && u != t && g in tasks[u].Holdings() && g < |h| && f < |h| ==>
                     LockAt(h, g, max) != LockAt(h, f, max)
  }

  ghost predicate CanAct(s: State, t: nat, a: Action, max: nat)
    requires t in s.tasks
  {
    var task := s.tasks[t];
    match a
    case AcquireOwn => task.stage.WaitOwn? && FreeFor(s.h, s.tasks, t, task.fetch, max)
    case OwnLive => task.stage.ReadOwn? && task.key in s.live
    case OwnRevive => task.stage.ReadOwn? && task.key !in s.live
    case OwnDead => task.stage.ReadOwn? && task.key !in s.live
    case ReviveOk => task.stage.Reviving?
    case ReviveFailed(_) => task.stage.Reviving?
    case SetOwn(alive) => task.stage.Working? || (task.stage.Starting? && alive)
    case SeeOther(other) => task.stage.Resolve? && other in s.live && other != task.key
    case NoOther => task.stage.Resolve?
    case FetchLock => task.stage.FetchOther?
    case AcquireOther =>
      task.stage.WaitOther? && FreeFor(s.h, s.tasks, t, task.stage.ofetch, max)
    case SetOther(_) => task.stage.WorkOther?
    case ReleaseOther(_) => task.stage.WorkOther?
  }

  ghost predicate Enabled(s: State, step: Step, max: nat) {
    match step
    case Begin(t, _) => t !in s.tasks
    case Act(t, a) => t in s.tasks && CanAct(s, t, a, max)
    case Finish(t) => t in s.tasks && (s.tasks[t].stage.Working? || s.tasks[t].stage.Ping?)
    case Abort(t) => t in s.tasks
    case Lockless(_, _) => true
  }

  /** The stage an action leads to, given the time and the index of the next touch. */
  function NextStage(stage: Stage, a: Action, clock: nat, touch: nat): Stage {
    match a
    case AcquireOwn => ReadOwn
    case OwnLive => Working
    case OwnRevive => Reviving
    case OwnDead => Resolve(clock)
    case ReviveOk => Working
    case ReviveFailed(_) => Resolve(clock)
    case SetOwn(_) => Working
    case SeeOther(other) => if stage.Resolve? then FetchOther(stage.since, other) else stage
    case NoOther => Starting
    case FetchLock => if stage.FetchOther? then WaitOther(stage.since, stage.other, touch) else stage
    case AcquireOther => if stage.WaitOther? then WorkOther(stage.other, stage.ofetch) else stage
    case SetOther(_) => stage
    case ReleaseOther(resumed) => if resumed then Ping else Starting
  }

  function SetLive(live: set<Key>, key: Key, alive: bool): set<Key> {
    if alive then live + {key} else live - {key}
  }

  function NextLive(live: set<Key>, task: Task, a: Action): set<Key> {
    match a
    case OwnRevive => live + {task.key}
    case ReviveFailed(leftLive) => SetLive(live, task.key, leftLive)
    case SetOwn(alive) => SetLive(live, task.key, alive)
    case SetOther(alive) => if task.stage.WorkOther? then SetLive(live, task.stage.other, alive) else live
    case _ => live
  }

  /** The task is gone, with every lock it held. */
  function Ended(s: State, t: nat): State {
    State(s.h, s.tasks - {t}, s.live, s.clock + 1)
  }

  function Apply(s: State, step: Step): State
    requires step.Act? || step.Finish? || step.Abort? ==> step.t in s.tasks
  {
    match step
    case Begin(t, key) =>
      State(s.h + [key], s.tasks[t := Task(key, |s.h|, WaitOwn)], s.live, s.clock + 1)
    case Act(t, a) =>
      var task := s.tasks[t];
      State(if a.FetchLock? && task.stage.FetchOther? then s.h + [task.stage.other] else s.h,
            s.tasks[t := task.(stage := NextStage(task.stage, a, s.clock + 1, |s.h|))],
            NextLive(s.live, task, a),
            s.clock + 1)
    case Finish(t) => Ended(s, t)
    case Abort(t) => Ended(s, t)
    case Lockless(key, alive) => State(s.h, s.tasks, SetLive(s.live, key, alive), s.clock + 1)
  }

  /** tr is a run of the system in which step i leads from tr[i] to tr[i + 1]. */
  ghost predicate IsRun(tr: seq<State>, steps: seq<Step>, max: nat) {
    && |tr| == |steps| + 1
    && tr[0] == START
    && forall i :: 0 <= i < |steps| ==>
                     Enabled(tr[i], steps[i], max) && tr[i + 1] == Apply(tr[i], steps[i])
  }

  // ----- mutual exclusion -----

  predicate TaskWellFormed(h: seq<Key>, clock: nat, task: Task) {
    && task.fetch < |h| && h[task.fetch] == task.key
    && (task.Crossing() ==> task.stage.since <= clock)
    && (task.stage.FetchOther? ==> task.stage.other != task.key)
    && (task.stage.WaitOther? || task.stage.WorkOther? ==>
          task.fetch < task.stage.ofetch < |h| && h[task.stage.ofetch] == task.stage.other != task.key)
  }

  ghost predicate WellFormed(s: State) {
    forall t :: t in s.tasks ==> TaskWellFormed(s.h, s.clock, s.tasks[t])
  }

  /** No lock object has two holders. */
  ghost predicate Exclusive(h: seq<Key>, tasks: map<nat, Task>, max: nat) {
    forall t, f :: t in tasks && f in tasks[t].Holdings() ==> FreeFor(h, tasks, t, f, max)
  }

  lemma LockAtPrefix(h: seq<Key>, k: Key, i: nat, max: nat)
    requires i < |h|
    ensures LockAt(h + [k], i, max) == LockAt(h, i, max)
  {
    assert (h + [k])[..i] == h[..i];
  }

  lemma StepWellFormed(s: State, step: Step, max: nat)
    requires WellFormed(s) && Enabled(s, step, max)
    ensures WellFormed(Apply(s, step))
  {
  }

  lemma HistoryGrows(h: seq<Key>, k: Key, tasks: map<nat, Task>, max: nat)
    requires Exclusive(h, tasks, max)
    requires forall t, f :: t in tasks && f in tasks[t].Holdings() ==> f < |h|
    ensures Exclusive(h + [k], tasks, max)
  {
    forall t, f | t in tasks && f in tasks[t].Holdings()
      ensures FreeFor(h + [k], tasks, t, f, max)
    {
      assert FreeFor(h, tasks, t, f, max);
      forall u, g | u in tasks && u != t && g in tasks[u].Holdings()
        ensures LockAt(h + [k], g, max) != LockAt(h + [k], f, max)
      {
        LockAtPrefix(h, k, f, max);
        LockAtPrefix(h, k, g, max);
      }
    }
  }

  /** Replacing one task keeps exclusivity when whatever it newly holds was free for it. */
  lemma Regrip(h: seq<Key>, tasks: map<nat, Task>, t: nat, task: Task, max: nat)
    requires Exclusive(h, tasks, max)
    requires forall f :: f in task.Holdings() ==> FreeFor(h, tasks, t, f, max)
    ensures Exclusive(h, tasks[t := task], max)
  {
    var tasks' := tasks[t := task];
    forall u, f | u in tasks' && f in tasks'[u].Holdings()
      ensures FreeFor(h, tasks', u, f, max)
    {
      if u == t {
        assert FreeFor(h, tasks, t, f, max);
      } else {
        assert FreeFor(h, tasks, u, f, max);
        forall g | g in task.Holdings() && g < |h| && f < |h|
          ensures LockAt(h, g, max) != LockAt(h, f, max)
        {
          assert FreeFor(h, tasks, t, g, max);
        }
      }
    }
  }

  function Moved(s: State, t: nat, a: Action): Task
    requires t in s.tasks
  {
    s.tasks[t].(stage := NextStage(s.tasks[t].stage, a, s.clock + 1, |s.h|))
  }

  lemma ActExclusive(s: State, t: nat, a: Action, max: nat)
    requires WellFormed(s) && Exclusive(s.h, s.tasks, max) && t in s.tasks && CanAct(s, t, a, max)
    ensures Exclusive(Apply(s, Act(t, a)).h, Apply(s, Act(t, a)).tasks, max)
  {
    var task' := Moved(s, t, a);
    Regrip(s.h, s.tasks, t, task', max);
    if a.FetchLock? {
      HistoryGrows(s.h, s.tasks[t].stage.other, s.tasks[t := task'], max);
    }
  }

  lemma StepExclusive(s: State, step: Step, max: nat)
    requires WellFormed(s) && Exclusive(s.h, s.tasks, max) && Enabled(s, step, max)
    ensures Exclusive(Apply(s, step).h, Apply(s, step).tasks, max)
  {
    match step
    case Begin(t, key) =>
      HistoryGrows(s.h, key, s.tasks, max);
      Regrip(s.h + [key], s.tasks, t, Task(key, |s.h|, WaitOwn), max);
    case Act(t, a) =>
      ActExclusive(s, t, a, max);
    case Finish(t) =>
      Drop(s.h, s.tasks, t, max);
    case Abort(t) =>
      Drop(s.h, s.tasks, t, max);
    case Lockless(_, _) =>
  }

  lemma Drop(h: seq<Key>, tasks: map<nat, Task>, t: nat, max: nat)
    requires Exclusive(h, tasks, max)
    ensures Exclusive(h, tasks - {t}, max)
  {
    forall u, f | u in tasks - {t} && f in tasks[u].Holdings()
      ensures FreeFor(h, tasks - {t}, u, f, max)
    {
      assert FreeFor(h, tasks, u, f, max);
    }
  }

  lemma {:induction false} RunsAreExclusive(tr: seq<State>, steps: seq<Step>, max: nat, i: nat)
    requires IsRun(tr, steps, max) && i < |tr|
    ensures WellFormed(tr[i]) && Exclusive(tr[i].h, tr[i].tasks, max)
  {
    if i > 0 {
      RunsAreExclusive(tr, steps, max, i - 1);
      StepWellFormed(tr[i - 1], steps[i - 1], max);
      StepExclusive(tr[i - 1], steps[i - 1], max);
    }
  }

  /**
   Mutual exclusion and its one exception: two dispatches hold locks for one key at once only if
   two successive touches of that key between their fetches saw at least max other keys.
   */
  lemma OverlapNeedsEviction(tr: seq<State>, steps: seq<Step>, max: nat, i: nat, t: nat, u: nat, f: nat, g: nat)
    requires IsRun(tr, steps, max) && i < |tr|
    requires t in tr[i].tasks && u in tr[i].tasks && t != u
    requires f in tr[i].tasks[t].Holdings() && g in tr[i].tasks[u].Holdings()
    requires f <= g < |tr[i].h| && tr[i].h[f] == tr[i].h[g]
    ensures exists p, q :: EvictedBetween(tr[i].h, f, g, p, q, max)
  {
    RunsAreExclusive(tr, steps, max, i);
    HoldersCollide(tr[i], max, t, u, f, g);
    SameLockChain(tr[i].h, f, g, max);
  }

  lemma HoldersCollide(s: State, max: nat, t: nat, u: nat, f: nat, g: nat)
    requires Exclusive(s.h, s.tasks, max)
    requires t in s.tasks && u in s.tasks && t != u
    requires f in s.tasks[t].Holdings() && g in s.tasks[u].Holdings()
    requires f <= g < |s.h| && s.h[f] == s.h[g]
    ensures f < g && LockAt(s.h, g, max) != LockAt(s.h, f, max)
    ensures |OthersSince(s.h, f)| >= max
  {
    assert FreeFor(s.h, s.tasks, t, f, max);
    assert LockAt(s.h, g, max) != LockAt(s.h, f, max);
    if |OthersSince(s.h, f)| < max {
      assert s.h[..g][f + 1..] <= s.h[f + 1..];
      assert OthersSince(s.h[..g], f) <= OthersSince(s.h, f);
      SubsetCardinality(OthersSince(s.h[..g], f), OthersSince(s.h, f));
      SameLockWithinWindow(s.h, f, g, max);
    }
  }

  // ----- deadlock freedom -----

  /** No in-flight fetch has seen max other keys touched since. */
  ghost predicate WithinWindow(s: State, max: nat) {
    forall t, f :: t in s.tasks && f in s.tasks[t].Fetches() && f < |s.h| ==>
                     |OthersSince(s.h, f)| < max
  }

  /** Run liveness changes only under the key's lock, and a failed revive leaves the run terminal. */
  predicate Disciplined(step: Step) {
    && !step.Lockless?
    && (step.Act? && step.action.ReviveFailed? ==> !step.action.leftLive)
  }

  ghost predicate HoldsKey(s: State, t: nat, k: Key)
    requires t in s.tasks
  {
    exists f :: f in s.tasks[t].Holdings() && f < |s.h| && s.h[f] == k
  }

  /** No two tasks hold locks for one key. */
  ghost predicate SoleHolders(s: State) {
    forall t, u, k :: t in s.tasks && u in s.tasks && HoldsKey(s, t, k) && HoldsKey(s, u, k) ==> t == u
  }

  lemma OneHolderPerKey(s: State, max: nat, t: nat, u: nat, k: Key)
    requires WithinWindow(s, max) && Exclusive(s.h, s.tasks, max)
    requires t in s.tasks && u in s.tasks && HoldsKey(s, t, k) && HoldsKey(s, u, k)
    ensures t == u
  {
    if t != u {
      var f :| f in s.tasks[t].Holdings() && f < |s.h| && s.h[f] == k;
      var g :| g in s.tasks[u].Holdings() && g < |s.h| && s.h[g] == k;
      assert f in s.tasks[t].Fetches() && g in s.tasks[u].Fetches();
      if f <= g {
        HoldersCollide(s, max, t, u, f, g);
      } else {
        HoldersCollide(s, max, u, t, g, f);
      }
    }
  }

  /** A disciplined action brings a run to life only under a lock for its key. */
  lemma LivenessUnderLock(s: State, t: nat, a: Action, max: nat, k: Key)
    requires t in s.tasks && TaskWellFormed(s.h, s.clock, s.tasks[t]) && CanAct(s, t, a, max)
    requires k !in s.live && k in NextLive(s.live, s.tasks[t], a)
    ensures HoldsKey(s, t, k)
  {
    var task := s.tasks[t];
    assert task.fetch in task.Holdings();
    if task.stage.WorkOther? {
      assert task.stage.ofetch in task.Holdings();
    }
  }

  /** A task that gave up on its own run keeps finding it dead, and waits only for a key
      whose holder, if it gave up too, did so later. */
  ghost predicate Ordered(s: State) {
    && (forall t :: t in s.tasks && s.tasks[t].Crossing() ==> s.tasks[t].key !in s.live)
    && (forall t, u :: t in s.tasks && u in s.tasks && s.tasks[u].Crossing() &&
                       s.tasks[t].Seeking(s.tasks[u].key) ==>
                         s.tasks[t].stage.since < s.tasks[u].stage.since)
  }

  lemma CrossingStaysDead(s: State, t: nat, a: Action, max: nat, u: nat)
    requires WellFormed(s) && SoleHolders(s) && Ordered(s)
    requires t in s.tasks && CanAct(s, t, a, max) && Disciplined(Act(t, a))
    requires u in s.tasks && Apply(s, Act(t, a)).tasks[u].Crossing()
    ensures s.tasks[u].key !in NextLive(s.live, s.tasks[t], a)
  {
    var k := s.tasks[u].key;
    if u != t && k in NextLive(s.live, s.tasks[t], a) {
      LivenessUnderLock(s, t, a, max, k);
      assert s.tasks[u].fetch in s.tasks[u].Holdings();
      assert HoldsKey(s, u, k);
    }
  }

  lemma ActOrdered(s: State, t: nat, a: Action, max: nat)
    requires WellFormed(s) && SoleHolders(s) && Ordered(s)
    requires t in s.tasks && CanAct(s, t, a, max) && Disciplined(Act(t, a))
    ensures Ordered(Apply(s, Act(t, a)))
  {
    var s' := Apply(s, Act(t, a));
    forall u | u in s'.tasks && s'.tasks[u].Crossing()
      ensures s'.tasks[u].key !in s'.live
    {
      CrossingStaysDead(s, t, a, max, u);
    }
  }

  lemma StepOrdered(s: State, step: Step, max: nat)
    requires WellFormed(s) && SoleHolders(s) && Ordered(s)
    requires Enabled(s, step, max) && Disciplined(step)
    ensures Ordered(Apply(s, step))
  {
    match step
    case Act(t, a) => ActOrdered(s, t, a, max);
    case Begin(_, _) =>
    case Finish(_) =>
    case Abort(_) =>
  }

  lemma {:induction false} RunsAreOrdered(tr: seq<State>, steps: seq<Step>, max: nat, i: nat)
    requires IsRun(tr, steps, max) && i < |tr|
    requires forall j :: 0 <= j < |tr| ==> SoleHolders(tr[j])
    requires forall j :: 0 <= j < |steps| ==> Disciplined(steps[j])
    ensures Ordered(tr[i])
  {
    if i > 0 {
      RunsAreOrdered(tr, steps, max, i - 1);
      RunsAreExclusive(tr, steps, max, i - 1);
      StepOrdered(tr[i - 1], steps[i - 1], max);
    }
  }

  /** Task t is waiting for a lock object that task u holds. */
  ghost predicate WaitsFor(s: State, t: nat, u: nat, max: nat) {
    && t in s.tasks && u in s.tasks && t != u
    && (s.tasks[t].stage.WaitOwn? || s.tasks[t].stage.WaitOther?)
    && var f := if s.tasks[t].stage.WaitOwn? then s.tasks[t].fetch else s.tasks[t].stage.ofetch;
    && f < |s.h|
    && exists g :: g in s.tasks[u].Holdings() && g < |s.h| && LockAt(s.h, g, max) == LockAt(s.h, f, max)
  }

  /** Some task of the group holds what t is waiting for. */
  ghost predicate BlockedBy(s: State, t: nat, group: set<nat>, max: nat) {
    exists u :: u in group && WaitsFor(s, t, u, max)
  }

  /** A circular wait: every task of the group waits for a lock held inside the group. */
  ghost predicate CircularWait(s: State, group: set<nat>, max: nat) {
    && group != {}
    && group <= s.tasks.Keys
    && forall t {:trigger BlockedBy(s, t, group, max)} :: t in group ==> BlockedBy(s, t, group, max)
  }

  /** Along a wait edge between two blocked tasks that hold a lock, the give-up time grows. */
  lemma WaitEdgeGrows(s: State, t: nat, u: nat, group: set<nat>, max: nat)
    requires WellFormed(s) && Ordered(s) && WaitsFor(s, t, u, max)
    requires s.tasks[t].stage.WaitOther? && BlockedBy(s, u, group, max)
    ensures s.tasks[u].stage.WaitOther? && s.tasks[t].stage.since < s.tasks[u].stage.since
  {
    HolderHasKey(s, t, u, max);
    var v :| v in group && WaitsFor(s, u, v, max);
    assert s.tasks[t].Seeking(s.tasks[u].key);
  }

  /** What t waits for is held under its own key. */
  lemma HolderHasKey(s: State, t: nat, u: nat, max: nat)
    requires WaitsFor(s, t, u, max) && s.tasks[t].stage.WaitOther?
    ensures HoldsKey(s, u, s.h[s.tasks[t].stage.ofetch])
  {
    var f := s.tasks[t].stage.ofetch;
    var g :| g in s.tasks[u].Holdings() && g < |s.h| && LockAt(s.h, g, max) == LockAt(s.h, f, max);
    LockIsForKey(s.h, f, max);
    LockIsForKey(s.h, g, max);
  }

  lemma LatestWaiter(s: State, ts: set<nat>) returns (m: nat)
    requires ts != {} && forall t :: t in ts ==> t in s.tasks && s.tasks[t].stage.WaitOther?
    ensures m in ts && forall t :: t in ts ==> s.tasks[t].stage.since <= s.tasks[m].stage.since
  {
    m :| m in ts;
    if ts != {m} {
      var r := LatestWaiter(s, ts - {m});
      if s.tasks[r].stage.since > s.tasks[m].stage.since {
        m := r;
      }
    }
  }

  function Waiters(s: State, group: set<nat>): set<nat> {
    set t | t in group && t in s.tasks && s.tasks[t].stage.WaitOther?
  }

  lemma CircularWaitHasWaiters(s: State, group: set<nat>, max: nat)
    requires CircularWait(s, group, max)
    ensures Waiters(s, group) != {}
  {
    var t0 :| t0 in group;
    assert BlockedBy(s, t0, group, max);
    var holder :| holder in group && WaitsFor(s, t0, holder, max);
    assert BlockedBy(s, holder, group, max);
    var v :| v in group && WaitsFor(s, holder, v, max);
    assert holder in Waiters(s, group);
  }

  lemma NoCircularWaitWhenOrdered(s: State, group: set<nat>, max: nat)
    requires WellFormed(s) && Ordered(s)
    ensures !CircularWait(s, group, max)
  {
    if CircularWait(s, group, max) {
      CircularWaitHasWaiters(s, group, max);
      var m := LatestWaiter(s, Waiters(s, group));
      assert BlockedBy(s, m, group, max);
      var u :| u in group && WaitsFor(s, m, u, max);
      assert BlockedBy(s, u, group, max);
      WaitEdgeGrows(s, m, u, group, max);
    }
  }

  /** Task t can take a step of its own, other than being aborted. */
  ghost predicate CanMove(s: State, t: nat, max: nat) {
    exists step: Step :: (step.Act? || step.Finish?) && step.t == t && Enabled(s, step, max)
  }

  /** Some task in flight can take a step. */
  ghost predicate Moves(s: State, max: nat) {
    exists t :: t in s.tasks && CanMove(s, t, max)
  }

  /** A task that no other task blocks can take a step. */
  lemma Unblocked(s: State, t: nat, max: nat)
    requires WellFormed(s) && t in s.tasks && !BlockedBy(s, t, s.tasks.Keys, max)
    ensures CanMove(s, t, max)
  {
    var step;
    var task := s.tasks[t];
    match task.stage
    case WaitOwn =>
      forall u, g | u in s.tasks && u != t && g in s.tasks[u].Holdings() && g < |s.h|
        ensures LockAt(s.h, g, max) != LockAt(s.h, task.fetch, max)
      {
        assert !WaitsFor(s, t, u, max);
      }
      step := Act(t, AcquireOwn);
    case WaitOther(_, _, ofetch) =>
      forall u, g | u in s.tasks && u != t && g in s.tasks[u].Holdings() && g < |s.h|
        ensures LockAt(s.h, g, max) != LockAt(s.h, ofetch, max)
      {
        assert !WaitsFor(s, t, u, max);
      }
      step := Act(t, AcquireOther);
    case ReadOwn => step := if task.key in s.live then Act(t, OwnLive) else Act(t, OwnDead);
    case Reviving => step := Act(t, ReviveOk);
    case Resolve(_) => step := Act(t, NoOther);
    case FetchOther(_, _) => step := Act(t, FetchLock);
    case WorkOther(_, _) => step := Act(t, ReleaseOther(true));
    case Working => step := Finish(t);
    case Starting => step := Act(t, SetOwn(true));
    case Ping => step := Finish(t);
    assert Enabled(s, step, max);
  }

  /**
   Deadlock freedom for any number of dispatches in any interleaving, under the two assumptions
   about runs and as long as no two tasks hold locks for one key: no group of tasks ever waits
   in a circle, and while a task is in flight some task in flight can take a step.
   */
  lemma NoRunDeadlocks(tr: seq<State>, steps: seq<Step>, max: nat, i: nat, group: set<nat>)
    requires IsRun(tr, steps, max) && i < |tr|
    requires forall j :: 0 <= j < |tr| ==> SoleHolders(tr[j])
    requires forall j :: 0 <= j < |steps| ==> Disciplined(steps[j])
    ensures !CircularWait(tr[i], group, max)
    ensures tr[i].tasks != map[] ==> Moves(tr[i], max)
  {
    var s := tr[i];
    RunsAreOrdered(tr, steps, max, i);
    RunsAreExclusive(tr, steps, max, i);
    NoCircularWaitWhenOrdered(s, group, max);
    NoCircularWaitWhenOrdered(s, s.tasks.Keys, max);
    if s.tasks != map[] {
      SomeUnblocked(s, max);
    }
  }

  /** The third assumption holds in particular while no fetch in flight has seen max other keys touched since. */
  lemma NoDeadlockWithinWindow(tr: seq<State>, steps: seq<Step>, max: nat, i: nat, group: set<nat>)
    requires IsRun(tr, steps, max) && i < |tr|
    requires forall j :: 0 <= j < |tr| ==> WithinWindow(tr[j], max)
    requires forall j :: 0 <= j < |steps| ==> Disciplined(steps[j])
    ensures !CircularWait(tr[i], group, max)
    ensures tr[i].tasks != map[] ==> Moves(tr[i], max)
  {
    forall j | 0 <= j < |tr| ensures SoleHolders(tr[j]) {
      RunsAreExclusive(tr, steps, max, j);
      WindowGivesSoleHolders(tr[j], max);
    }
    NoRunDeadlocks(tr, steps, max, i, group);
  }

  lemma WindowGivesSoleHolders(s: State, max: nat)
    requires WithinWindow(s, max) && Exclusive(s.h, s.tasks, max)
    ensures SoleHolders(s)
  {
    forall t, u, k | t in s.tasks && u in s.tasks && HoldsKey(s, t, k) && HoldsKey(s, u, k) ensures t == u {
      OneHolderPerKey(s, max, t, u, k);
    }
  }

  /** Tasks t and u hold the locks of touches f and g of one key. */
  predicate HoldBoth(s: State, f: nat, g: nat, t: nat, u: nat) {
    && f < |s.h| && g < |s.h| && s.h[f] == s.h[g]
    && t in s.tasks && u in s.tasks && t != u
    && f in s.tasks[t].Holdings() && g in s.tasks[u].Holdings()
  }

  /** Two tasks hold locks for one key, which was evicted between their two fetches. */
  ghost predicate EvictedWhileHeld(s: State, max: nat) {
    exists f, g, t, u, p, q :: HoldBoth(s, f, g, t, u) && EvictedBetween(s.h, f, g, p, q, max)
  }

  /** In every run, the third assumption fails exactly where a lock in use was evicted. */
  lemma SharedKeyIffEvicted(tr: seq<State>, steps: seq<Step>, max: nat, j: nat)
    requires IsRun(tr, steps, max) && j < |tr|
    ensures !SoleHolders(tr[j]) <==> EvictedWhileHeld(tr[j], max)
  {
    var s := tr[j];
    if !SoleHolders(s) {
      var t, u, k :| t in s.tasks && u in s.tasks && HoldsKey(s, t, k) && HoldsKey(s, u, k) && t != u;
      var f :| f in s.tasks[t].Holdings() && f < |s.h| && s.h[f] == k;
      var g :| g in s.tasks[u].Holdings() && g < |s.h| && s.h[g] == k;
      if f <= g {
        OverlapNeedsEviction(tr, steps, max, j, t, u, f, g);
        assert HoldBoth(s, f, g, t, u);
      } else {
        OverlapNeedsEviction(tr, steps, max, j, u, t, g, f);
        assert HoldBoth(s, g, f, u, t);
      }
    }
    if EvictedWhileHeld(s, max) {
      var f, g, t, u, p, q :| HoldBoth(s, f, g, t, u) && EvictedBetween(s.h, f, g, p, q, max);
      BothShareKey(s, f, g, t, u);
    }
  }

  lemma BothShareKey(s: State, f: nat, g: nat, t: nat, u: nat)
    requires HoldBoth(s, f, g, t, u)
    ensures !SoleHolders(s)
  {
    assert HoldsKey(s, t, s.h[f]);
    assert HoldsKey(s, u, s.h[g]);
  }

  /** If a disciplined run does end in a circular wait, some lock in use was evicted on the way. */
  lemma DeadlockNeedsEviction(tr: seq<State>, steps: seq<Step>, max: nat, i: nat, group: set<nat>)
    requires IsRun(tr, steps, max) && i < |tr| && CircularWait(tr[i], group, max)
    requires forall k :: 0 <= k < |steps| ==> Disciplined(steps[k])
    ensures exists j :: 0 <= j < |tr| && EvictedWhileHeld(tr[j], max)
  {
    forall j | 0 <= j < |tr| ensures !SoleHolders(tr[j]) <==> EvictedWhileHeld(tr[j], max) {
      SharedKeyIffEvicted(tr, steps, max, j);
    }
    if forall j :: 0 <= j < |tr| ==> SoleHolders(tr[j]) {
      NoRunDeadlocks(tr, steps, max, i, group);
    }
  }

  lemma SomeUnblocked(s: State, max: nat)
    requires WellFormed(s) && s.tasks != map[] && !CircularWait(s, s.tasks.Keys, max)
    ensures Moves(s, max)
  {
    var group := s.tasks.Keys;
    assert group != {};
    assert !(forall t {:trigger BlockedBy(s, t, group, max)} :: t in group ==> BlockedBy(s, t, group, max));
    var t :| t in group && !BlockedBy(s, t, group, max);
    Unblocked(s, t, max);
  }
}
