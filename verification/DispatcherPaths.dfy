/**
 What one dispatch may do, told by the steps it has taken and the runs that are live
 (app/services/workflow/dispatcher.py, _dispatch_locked).
 */
module DispatcherPaths {
  import opened Shared
  import opened Sequences
  import opened LockTable
  import opened Dispatcher

  predicate IsOf(step: Step, t: nat) {
    !step.Lockless? && step.t == t
  }

  /** What task t has done since it last began. */
  function Trail(steps: seq<Step>, t: nat): seq<Action> {
    if steps == [] then []
    else
      var before, step := Trail(steps[..|steps| - 1], t), steps[|steps| - 1];
      if !IsOf(step, t) then before
      else if step.Begin? then []
      else if step.Act? then before + [step.action]
      else before
  }

  /** The key of the message that task t last began with. */
  function OwnKey(steps: seq<Step>, t: nat): Option<Key> {
    if steps == [] then None
    else
      var step := steps[|steps| - 1];
      if IsOf(step, t) && step.Begin? then Some(step.key) else OwnKey(steps[..|steps| - 1], t)
  }

  /** Task t has begun and not ended. */
  predicate InFlight(steps: seq<Step>, t: nat) {
    if steps == [] then false
    else
      var step := steps[|steps| - 1];
      if IsOf(step, t) then step.Begin? || step.Act? else InFlight(steps[..|steps| - 1], t)
  }

  /** The other channel's key, once its run has been seen. */
  function Seen(trail: seq<Action>): Option<Key> {
    if trail == [] then None
    else
      var a := trail[|trail| - 1];
      if a.SeeOther? then Some(a.other) else Seen(trail[..|trail| - 1])
  }

  // ----- what may come next -----

  /** Nothing left to resume: the message is due a run of its own. */
  predicate MustStart(last: Action) {
    last.NoOther? || last == ReleaseOther(false)
  }

  /** Its own run is being resumed, or has been started. */
  predicate RunsOwn(last: Action) {
    last.OwnLive? || last.ReviveOk? || last.SetOwn?
  }

  predicate HoldsOther(last: Action) {
    last.AcquireOther? || last.SetOther?
  }

  /** The order of the calls in _dispatch_locked. */
  predicate MayFollow(trail: seq<Action>, a: Action) {
    if trail == [] then a.AcquireOwn?
    else
      var last := trail[|trail| - 1];
      match a
      case AcquireOwn => false
      case OwnLive => last.AcquireOwn?
      case OwnRevive => last.AcquireOwn?
      case OwnDead => last.AcquireOwn?
      case ReviveOk => last.OwnRevive?
      case ReviveFailed(_) => last.OwnRevive?
      case SeeOther(_) => last.OwnDead? || last.ReviveFailed?
      case NoOther => last.OwnDead? || last.ReviveFailed?
      case FetchLock => last.SeeOther?
      case AcquireOther => last.FetchLock?
      case SetOther(_) => HoldsOther(last)
      case ReleaseOther(_) => HoldsOther(last)
      case SetOwn(alive) => RunsOwn(last) || (alive && MustStart(last))
  }

  predicate MayEnd(trail: seq<Action>) {
    trail != [] && (RunsOwn(trail[|trail| - 1]) || trail[|trail| - 1] == ReleaseOther(true))
  }

  /** What an action asks of the runs, for a message of that key. */
  predicate SeesRuns(live: set<Key>, key: Option<Key>, a: Action) {
    match a
    case OwnLive => key.Some? && key.value in live
    case OwnRevive => key.Some? && key.value !in live
    case OwnDead => key.Some? && key.value !in live
    case SeeOther(other) => other in live && key != Some(other)
    case _ => true
  }

  /** What the steps so far say about task t is what the state says about it. */
  predicate Fits(stage: Stage, trail: seq<Action>) {
    if trail == [] then stage.WaitOwn?
    else
      var last := trail[|trail| - 1];
      if last.AcquireOwn? then stage.ReadOwn?
      else if RunsOwn(last) then stage.Working?
      else if last.OwnRevive? then stage.Reviving?
      else if last.OwnDead? || last.ReviveFailed? then stage.Resolve?
      else if MustStart(last) then stage.Starting?
      else if last.SeeOther? then stage.FetchOther? && Seen(trail) == Some(stage.other)
      else if last.FetchLock? then stage.WaitOther? && Seen(trail) == Some(stage.other)
      else if HoldsOther(last) then stage.WorkOther? && Seen(trail) == Some(stage.other)
      else stage.Ping?
  }

  ghost predicate Tracks(past: seq<Step>, s: State, t: nat) {
    && (InFlight(past, t) <==> t in s.tasks)
    && (t in s.tasks ==> OwnKey(past, t) == Some(s.tasks[t].key) && Fits(s.tasks[t].stage, Trail(past, t)))
  }

  lemma OneStepOn(past: seq<Step>, step: Step, t: nat)
    ensures InFlight(past + [step], t) == if IsOf(step, t) then step.Begin? || step.Act? else InFlight(past, t)
    ensures OwnKey(past + [step], t) == if IsOf(step, t) && step.Begin? then Some(step.key) else OwnKey(past, t)
    ensures Trail(past + [step], t) == if !IsOf(step, t) then Trail(past, t)
                                       else if step.Begin? then []
                                       else if step.Act? then Trail(past, t) + [step.action]
                                       else Trail(past, t)
  {
    assert (past + [step])[..|past|] == past;
  }

  lemma ActFits(s: State, t: nat, a: Action, max: nat, trail: seq<Action>)
    requires t in s.tasks && CanAct(s, t, a, max) && Fits(s.tasks[t].stage, trail)
    ensures Fits(Moved(s, t, a).stage, trail + [a])
  {
    assert (trail + [a])[..|trail|] == trail;
  }

  lemma StepTracks(past: seq<Step>, s: State, step: Step, max: nat, t: nat)
    requires Tracks(past, s, t) && Enabled(s, step, max)
    ensures Tracks(past + [step], Apply(s, step), t)
  {
    OneStepOn(past, step, t);
    if step.Act? && step.t == t {
      ActFits(s, t, step.action, max, Trail(past, t));
    }
  }

  lemma {:induction false} RunTracks(tr: seq<State>, steps: seq<Step>, max: nat, i: nat, t: nat)
    requires IsRun(tr, steps, max) && i < |tr|
    ensures Tracks(steps[..i], tr[i], t)
  {
    if i > 0 {
      RunTracks(tr, steps, max, i - 1, t);
      StepTracks(steps[..i - 1], tr[i - 1], steps[i - 1], max, t);
      assert steps[..i] == steps[..i - 1] + [steps[i - 1]];
    }
  }

  /** A task waiting for a lock can take it exactly when no task holds it. */
  lemma FreeIffUnblocked(s: State, t: nat, max: nat)
    requires WellFormed(s) && t in s.tasks
    ensures s.tasks[t].stage.WaitOwn? ==>
              (FreeFor(s.h, s.tasks, t, s.tasks[t].fetch, max) <==> !BlockedBy(s, t, s.tasks.Keys, max))
    ensures s.tasks[t].stage.WaitOther? ==>
              (FreeFor(s.h, s.tasks, t, s.tasks[t].stage.ofetch, max) <==> !BlockedBy(s, t, s.tasks.Keys, max))
  {
    if !BlockedBy(s, t, s.tasks.Keys, max) {
      forall u | u in s.tasks ensures !WaitsFor(s, t, u, max) {
      }
    } else {
      var u :| u in s.tasks && WaitsFor(s, t, u, max);
    }
  }

  lemma CanActIff(s: State, t: nat, a: Action, max: nat, trail: seq<Action>)
    requires WellFormed(s) && t in s.tasks && Fits(s.tasks[t].stage, trail)
    ensures CanAct(s, t, a, max) <==>
              && MayFollow(trail, a) && SeesRuns(s.live, Some(s.tasks[t].key), a)
              && (a.AcquireOwn? || a.AcquireOther? ==> !BlockedBy(s, t, s.tasks.Keys, max))
  {
    FreeIffUnblocked(s, t, max);
  }

  // ----- the main result: exactly which steps a dispatch can take -----

  /**
   In every run a task in flight can do exactly what the order of the calls allows next, given the
   runs that are live and, for the two lock acquisitions, that no task holds the lock it waits for.
   */
  lemma NextActions(tr: seq<State>, steps: seq<Step>, max: nat, i: nat, t: nat, a: Action)
    requires IsRun(tr, steps, max) && i < |tr|
    ensures Enabled(tr[i], Act(t, a), max) <==>
              && InFlight(steps[..i], t) && MayFollow(Trail(steps[..i], t), a)
              && SeesRuns(tr[i].live, OwnKey(steps[..i], t), a)
              && (a.AcquireOwn? || a.AcquireOther? ==> !BlockedBy(tr[i], t, tr[i].tasks.Keys, max))
  {
    RunTracks(tr, steps, max, i, t);
    RunsAreExclusive(tr, steps, max, i);
    if t in tr[i].tasks {
      CanActIff(tr[i], t, a, max, Trail(steps[..i], t));
    }
  }

  /** A task in flight can return exactly when it has resumed a run or started one. */
  lemma Returns(tr: seq<State>, steps: seq<Step>, max: nat, i: nat, t: nat)
    requires IsRun(tr, steps, max) && i < |tr|
    ensures Enabled(tr[i], Finish(t), max) <==> InFlight(steps[..i], t) && MayEnd(Trail(steps[..i], t))
  {
    RunTracks(tr, steps, max, i, t);
  }

  /**
   In every run an action changes the liveness of the task's own key, or of the other key it last
   saw, and of nothing else; and it touches a lock only to fetch that of the key it saw.
   */
  lemma WhatActionsDo(tr: seq<State>, steps: seq<Step>, max: nat, i: nat, t: nat, a: Action)
    requires IsRun(tr, steps, max) && i < |steps| && steps[i] == Act(t, a)
    ensures OwnKey(steps[..i], t).Some?
    ensures a.SetOther? || a.FetchLock? ==> Seen(Trail(steps[..i], t)).Some?
    ensures var own, other := OwnKey(steps[..i], t).value, Seen(Trail(steps[..i], t));
            && tr[i + 1].live == (
              if a.OwnRevive? || a == SetOwn(true) || a == ReviveFailed(true) then tr[i].live + {own}
              else if a == SetOwn(false) || a == ReviveFailed(false) then tr[i].live - {own}
              else if a == SetOther(true) then tr[i].live + {other.value}
              else if a == SetOther(false) then tr[i].live - {other.value}
              else tr[i].live)
            && tr[i + 1].h == if a.FetchLock? then tr[i].h + [other.value] else tr[i].h
  {
    RunTracks(tr, steps, max, i, t);
  }

  /** In every run a task in flight holds its own key's lock once it has acquired it, and the other
      key's lock from acquiring to releasing it. */
  lemma HoldsExactly(tr: seq<State>, steps: seq<Step>, max: nat, i: nat, t: nat, k: Key)
    requires IsRun(tr, steps, max) && i < |tr| && t in tr[i].tasks
    ensures var trail := Trail(steps[..i], t);
            HoldsKey(tr[i], t, k) <==>
              || (trail != [] && Some(k) == OwnKey(steps[..i], t))
              || (trail != [] && HoldsOther(trail[|trail| - 1]) && Some(k) == Seen(trail))
  {
    RunTracks(tr, steps, max, i, t);
    RunsAreExclusive(tr, steps, max, i);
    var task := tr[i].tasks[t];
    if !task.stage.WaitOwn? {
      assert task.fetch in task.Holdings();
    }
    if task.stage.WorkOther? {
      assert task.stage.ofetch in task.Holdings();
    }
  }

  // ----- whole dispatches -----

  /** Each action follows those before it in the order of the calls. */
  ghost predicate Path(trail: seq<Action>) {
    forall k :: 0 <= k < |trail| ==> MayFollow(trail[..k], trail[k])
  }

  lemma PathGrows(trail: seq<Action>, a: Action)
    requires Path(trail) && MayFollow(trail, a)
    ensures Path(trail + [a])
  {
    var trail' := trail + [a];
    forall k | 0 <= k < |trail'| ensures MayFollow(trail'[..k], trail'[k]) {
      assert trail'[..k] == trail[..k];
    }
    assert trail[..|trail|] == trail;
  }

  lemma {:induction false} TrailsArePaths(tr: seq<State>, steps: seq<Step>, max: nat, i: nat, t: nat)
    requires IsRun(tr, steps, max) && i < |tr|
    ensures Path(Trail(steps[..i], t))
  {
    if i > 0 {
      TrailsArePaths(tr, steps, max, i - 1, t);
      var past, step := steps[..i - 1], steps[i - 1];
      assert steps[..i] == past + [step];
      OneStepOn(past, step, t);
      if step.Act? && step.t == t {
        NextActions(tr, steps, max, i - 1, t, step.action);
        PathGrows(Trail(past, t), step.action);
      }
    }
  }

  lemma NextInPath(trail: seq<Action>, p: nat)
    requires Path(trail) && p + 1 < |trail|
    ensures MayFollow(trail[..p + 1], trail[p + 1]) && trail[..p + 1][p] == trail[p]
  {
  }

  /** Once a dispatch runs its own key's run, it does nothing but save it. */
  lemma {:induction false} OwnRunStays(trail: seq<Action>, p: nat, q: nat)
    requires Path(trail) && p < q < |trail| && RunsOwn(trail[p])
    ensures trail[q].SetOwn?
  {
    if p < q - 1 {
      OwnRunStays(trail, p, q - 1);
    }
    assert MayFollow(trail[..q], trail[q]) && trail[..q][q - 1] == trail[q - 1];
  }

  lemma PathEnds(trail: seq<Action>, p: nat)
    requires Path(trail) && p < |trail| && trail[p] == ReleaseOther(true)
    ensures p == |trail| - 1
  {
    if p < |trail| - 1 {
      NextInPath(trail, p);
    }
  }

  /** The message was answered by a run of its own key. */
  predicate ServedByOwn(trail: seq<Action>) {
    OwnLive in trail || ReviveOk in trail || SetOwn(true) in trail
  }

  /** The message was answered by the run of the other channel. */
  predicate ServedByOther(trail: seq<Action>) {
    ReleaseOther(true) in trail
  }

  lemma {:induction false} OwnRunServes(trail: seq<Action>)
    requires Path(trail) && trail != [] && RunsOwn(trail[|trail| - 1])
    ensures ServedByOwn(trail)
  {
    var last := |trail| - 1;
    assert MayFollow(trail[..last], trail[last]);
    if trail[last] == SetOwn(false) {
      assert Path(trail[..last]) by {
        forall k | 0 <= k < last ensures MayFollow(trail[..last][..k], trail[..last][k]) {
          assert trail[..last][..k] == trail[..k];
        }
      }
      OwnRunServes(trail[..last]);
    }
  }

  lemma OneRunServes(trail: seq<Action>)
    requires Path(trail) && MayEnd(trail)
    ensures ServedByOther(trail) <==> !ServedByOwn(trail)
  {
    var last := |trail| - 1;
    if RunsOwn(trail[last]) {
      OwnRunServes(trail);
      if ServedByOther(trail) {
        var p :| 0 <= p < |trail| && trail[p] == ReleaseOther(true);
        PathEnds(trail, p);
      }
    } else if ServedByOwn(trail) {
      var p :| 0 <= p < |trail| && RunsOwn(trail[p]);
      OwnRunStays(trail, p, last);
    }
  }

  /**
   No message is dropped and none is answered twice: in every run a dispatch that returns has
   resumed the other channel's run, or has resumed or started its own, and never both.
   */
  lemma ReturnsServedOnce(tr: seq<State>, steps: seq<Step>, max: nat, j: nat, t: nat)
    requires IsRun(tr, steps, max) && j < |steps| && steps[j] == Finish(t)
    ensures ServedByOther(Trail(steps[..j], t)) <==> !ServedByOwn(Trail(steps[..j], t))
  {
    TrailsArePaths(tr, steps, max, j, t);
    Returns(tr, steps, max, j, t);
    OneRunServes(Trail(steps[..j], t));
  }

  // ----- what follows a resume -----

  /** From step i to step j task t does not begin again. */
  predicate OneDispatch(steps: seq<Step>, i: nat, j: nat, t: nat)
    requires j < |steps|
  {
    forall m :: i < m <= j ==> !(steps[m].Begin? && steps[m].t == t)
  }

  /** Later in the same dispatch its trail has only grown. */
  lemma {:induction false} TrailGrows(steps: seq<Step>, i: nat, j: nat, t: nat)
    requires i < j < |steps| && OneDispatch(steps, i, j, t)
    ensures Trail(steps[..i + 1], t) <= Trail(steps[..j], t)
    ensures OwnKey(steps[..i + 1], t) == OwnKey(steps[..j], t)
  {
    if i + 1 < j {
      TrailGrows(steps, i, j - 1, t);
      OneStepOn(steps[..j - 1], steps[j - 1], t);
      assert steps[..j] == steps[..j - 1] + [steps[j - 1]];
    }
  }

  /** An action of step i has its place in the trail at every later step of the dispatch. */
  lemma PlaceInTrail(tr: seq<State>, steps: seq<Step>, max: nat, i: nat, j: nat, t: nat, a: Action)
    requires IsRun(tr, steps, max) && i < j < |steps| && steps[i] == Act(t, a) && OneDispatch(steps, i, j, t)
    ensures var p, trail := |Trail(steps[..i], t)|, Trail(steps[..j], t);
            p < |trail| && trail[p] == a && Path(trail)
  {
    TrailGrows(steps, i, j, t);
    OneStepOn(steps[..i], steps[i], t);
    assert steps[..i + 1] == steps[..i] + [steps[i]];
    TrailsArePaths(tr, steps, max, j, t);
  }

  /** A dispatch that resumed the other channel's run and released its lock only returns or is
      aborted: it brings no run to life, ends none, and takes no further lock. */
  lemma ResumedElsewhereIsOver(tr: seq<State>, steps: seq<Step>, max: nat, i: nat, j: nat, t: nat)
    requires IsRun(tr, steps, max) && i < j < |steps| && OneDispatch(steps, i, j, t)
    requires steps[i] == Act(t, ReleaseOther(true)) && IsOf(steps[j], t)
    ensures steps[j] == Finish(t) || steps[j] == Abort(t)
    ensures tr[j + 1].live == tr[j].live && tr[j + 1].h == tr[j].h
  {
    PlaceInTrail(tr, steps, max, i, j, t, ReleaseOther(true));
    PathEnds(Trail(steps[..j], t), |Trail(steps[..i], t)|);
    if steps[j].Act? {
      NextActions(tr, steps, max, j, t, steps[j].action);
    }
  }

  lemma OnlySavesFollow(tr: seq<State>, steps: seq<Step>, max: nat, i: nat, j: nat, t: nat)
    requires IsRun(tr, steps, max) && i < j < |steps| && OneDispatch(steps, i, j, t)
    requires steps[i] == Act(t, OwnLive) && steps[j].Act? && steps[j].t == t
    ensures steps[j].action.SetOwn?
  {
    PlaceInTrail(tr, steps, max, i, j, t, OwnLive);
    var p, trail := |Trail(steps[..i], t)|, Trail(steps[..j], t);
    if |trail| - 1 > p {
      OwnRunStays(trail, p, |trail| - 1);
    }
    NextActions(tr, steps, max, j, t, steps[j].action);
  }

  /** A dispatch that read its own run live saves that run and returns: it never changes another
      key's run and never goes for another lock. */
  lemma OwnLiveKeepsToItself(tr: seq<State>, steps: seq<Step>, max: nat, i: nat, j: nat, t: nat)
    requires IsRun(tr, steps, max) && i < j < |steps| && OneDispatch(steps, i, j, t)
    requires steps[i] == Act(t, OwnLive) && IsOf(steps[j], t)
    ensures steps[j] == Finish(t) || steps[j] == Abort(t) || (steps[j].Act? && steps[j].action.SetOwn?)
    ensures tr[j + 1].h == tr[j].h
    ensures forall k :: Some(k) != OwnKey(steps[..i], t) ==> (k in tr[j + 1].live <==> k in tr[j].live)
  {
    if steps[j].Act? {
      OnlySavesFollow(tr, steps, max, i, j, t);
      WhatActionsDo(tr, steps, max, j, t, steps[j].action);
      TrailGrows(steps, i, j, t);
      OneStepOn(steps[..i], steps[i], t);
      assert steps[..i + 1] == steps[..i] + [steps[i]];
    }
  }

  /** A dispatch whose resume of the other channel's run failed can at once start a run of its own,
      and can do nothing else short of being aborted: it cannot return without one. */
  lemma FailedResumeStartsOwn(tr: seq<State>, steps: seq<Step>, max: nat, i: nat, j: nat, t: nat)
    requires IsRun(tr, steps, max) && i < j < |steps|
    requires steps[i] == Act(t, ReleaseOther(false)) && forall m :: i < m < j ==> !IsOf(steps[m], t)
    ensures Enabled(tr[j], Act(t, SetOwn(true)), max)
    ensures var own := OwnKey(steps[..j], t);
            steps[j] == Act(t, SetOwn(true)) ==> own.Some? && own.value in tr[j + 1].live
    ensures IsOf(steps[j], t) ==> steps[j] == Act(t, SetOwn(true)) || steps[j] == Abort(t)
  {
    Rests(steps, i, j, t);
    NextActions(tr, steps, max, j, t, SetOwn(true));
    Returns(tr, steps, max, j, t);
    RunTracks(tr, steps, max, j, t);
    if steps[j].Act? && steps[j].t == t {
      NextActions(tr, steps, max, j, t, steps[j].action);
    }
  }

  /** A task that takes no step stays where its last action left it. */
  lemma {:induction false} Rests(steps: seq<Step>, i: nat, j: nat, t: nat)
    requires i < j <= |steps| && steps[i].Act? && steps[i].t == t
    requires forall m :: i < m < j ==> !IsOf(steps[m], t)
    ensures InFlight(steps[..j], t)
    ensures var trail := Trail(steps[..j], t); trail != [] && trail[|trail| - 1] == steps[i].action
  {
    if i + 1 < j {
      Rests(steps, i, j - 1, t);
    }
    OneStepOn(steps[..j - 1], steps[j - 1], t);
    assert steps[..j] == steps[..j - 1] + [steps[j - 1]];
  }
}
