/**
 Concrete runs showing that each assumption of the dispatcher proofs is needed:
 a held lock is evicted after max other keys, and without either assumption about runs
 two dispatches deadlock.
 */
module DispatcherWitnesses {
  import opened Shared
  import opened Sequences
  import opened LockTable
  import opened Dispatcher

  lemma ExtendRun(tr: seq<State>, steps: seq<Step>, max: nat, step: Step)
      returns (tr': seq<State>, steps': seq<Step>)
    requires IsRun(tr, steps, max) && Enabled(tr[|tr| - 1], step, max)
    ensures tr' == tr + [Apply(tr[|tr| - 1], step)] && steps' == steps + [step]
    ensures IsRun(tr', steps', max)
  {
    tr', steps' := tr + [Apply(tr[|tr| - 1], step)], steps + [step];
    forall i | 0 <= i < |steps'|
      ensures Enabled(tr'[i], steps'[i], max) && tr'[i + 1] == Apply(tr'[i], steps'[i])
    {
      if i < |steps| {
        assert tr'[i] == tr[i] && tr'[i + 1] == tr[i + 1] && steps'[i] == steps[i];
      }
    }
  }

  /** Which of the two assumptions about runs a step may break. */
  datatype Lapse = NoLapse | LeakyRevive | LocklessResume

  predicate Permits(lapse: Lapse, step: Step) {
    || Disciplined(step)
    || (lapse.LeakyRevive? && step.Act? && step.action == ReviveFailed(true))
    || (lapse.LocklessResume? && step.Lockless?)
  }

  /** A run whose steps keep to that. */
  ghost predicate IsRunWith(tr: seq<State>, steps: seq<Step>, max: nat, lapse: Lapse) {
    IsRun(tr, steps, max) && forall i :: 0 <= i < |steps| ==> Permits(lapse, steps[i])
  }

  /** Some such run ends in s. */
  ghost predicate Reaches(s: State, max: nat, lapse: Lapse) {
    exists tr, steps :: IsRunWith(tr, steps, max, lapse) && tr[|tr| - 1] == s
  }

  lemma StartReached(max: nat, lapse: Lapse)
    ensures Reaches(START, max, lapse)
  {
    assert IsRunWith([START], [], max, lapse);
    assert [START][|[START]| - 1] == START;
  }

  lemma GoOn(s: State, step: Step, max: nat, lapse: Lapse) returns (s': State)
    requires Reaches(s, max, lapse) && Enabled(s, step, max) && Permits(lapse, step)
    ensures s' == Apply(s, step) && Reaches(s', max, lapse)
  {
    s' := Apply(s, step);
    var tr, steps :| IsRunWith(tr, steps, max, lapse) && tr[|tr| - 1] == s;
    var tr', steps' := ExtendRun(tr, steps, max, step);
    assert IsRunWith(tr', steps', max, lapse) && tr'[|tr'| - 1] == s';
  }

  /** The i-th of a family of distinct callers. */
  function Caller(i: nat): Key {
    Key(WhatsApp, seq(i, _ => '0'))
  }

  function Callers(n: nat): seq<Key> {
    seq(n, i requires 0 <= i < n => Caller(i))
  }

  const HOME := Key(Email, "a@example.org")

  /** One task holds HOME's lock while n other callers have fetched theirs. */
  ghost predicate Crowded(s: State, n: nat) {
    && s.h == [HOME] + Callers(n) && s.live == {}
    && 0 in s.tasks && s.tasks[0] == Task(HOME, 0, ReadOwn)
    && forall t :: t in s.tasks ==> t <= n && (t > 0 ==> s.tasks[t].stage.WaitOwn?)
  }

  lemma {:induction false} Crowd(max: nat, n: nat)
    ensures exists s :: Reaches(s, max, NoLapse) && Crowded(s, n)
  {
    if n == 0 {
      StartReached(max, NoLapse);
      var s := GoOn(START, Begin(0, HOME), max, NoLapse);
      s := GoOn(s, Act(0, AcquireOwn), max, NoLapse);
      assert Crowded(s, 0);
    } else {
      Crowd(max, n - 1);
      var s :| Reaches(s, max, NoLapse) && Crowded(s, n - 1);
      s := GoOn(s, Begin(n, Caller(n - 1)), max, NoLapse);
      assert Callers(n) == Callers(n - 1) + [Caller(n - 1)];
      assert Crowded(s, n);
    }
  }

  lemma CallersDistinct(n: nat)
    ensures |ToSet(Callers(n))| == n && HOME !in Callers(n)
  {
    forall i, j | 0 <= i < j < n ensures Callers(n)[i] != Callers(n)[j] {
      assert |Caller(i).identity| == i && |Caller(j).identity| == j;
    }
    DistinctCardinality(Callers(n));
  }

  lemma CrowdEvicts(max: nat)
    ensures LockAt([HOME] + Callers(max) + [HOME], 0, max) != LockAt([HOME] + Callers(max) + [HOME], max + 1, max)
  {
    var h := [HOME] + Callers(max) + [HOME];
    assert h[..max + 1][1..] == h[1..max + 1] == Callers(max);
    CallersDistinct(max);
    assert OthersSince(h[..max + 1], 0) == ToSet(Callers(max));
    SameLockIff(h, 0, max + 1, max);
  }

  /** Nobody holds the lock that HOME's next touch gets after the crowd. */
  lemma LatecomerIsFree(s: State, max: nat)
    requires s.h == [HOME] + Callers(max) + [HOME]
    requires 0 in s.tasks && s.tasks[0] == Task(HOME, 0, ReadOwn)
    requires forall t :: t in s.tasks && t > 0 ==> s.tasks[t].stage.WaitOwn?
    ensures FreeFor(s.h, s.tasks, max + 1, max + 1, max)
  {
    CrowdEvicts(max);
  }

  /** Two tasks hold a lock for HOME, after a crowd of max callers. */
  ghost predicate HomeHeldTwice(s: State, max: nat) {
    && s.h == [HOME] + Callers(max) + [HOME] && s.live == {}
    && 0 in s.tasks && s.tasks[0] == Task(HOME, 0, ReadOwn)
    && max + 1 in s.tasks && s.tasks[max + 1] == Task(HOME, max + 1, ReadOwn)
    && forall t :: t in s.tasks ==> t <= max + 1 && (0 < t <= max ==> s.tasks[t].stage.WaitOwn?)
  }

  lemma TwoHomeHolders(max: nat)
    ensures exists s :: Reaches(s, max, NoLapse) && HomeHeldTwice(s, max)
  {
    Crowd(max, max);
    var s :| Reaches(s, max, NoLapse) && Crowded(s, max);
    s := GoOn(s, Begin(max + 1, HOME), max, NoLapse);
    LatecomerIsFree(s, max);
    s := GoOn(s, Act(max + 1, AcquireOwn), max, NoLapse);
    assert HomeHeldTwice(s, max);
  }

  /**
   The comment at dispatcher.py:221-225 says an evicted lock cannot have been held. For every
   cap there is a run in which a held lock is evicted and a second dispatch for the same key
   then runs beside the first.
   */
  lemma HeldLockEvicted(max: nat)
    ensures exists tr, steps :: IsRunWith(tr, steps, max, NoLapse) && ReadTwice(tr[|tr| - 1])
  {
    TwoHomeHolders(max);
    var s :| Reaches(s, max, NoLapse) && HomeHeldTwice(s, max);
    assert s.tasks[0].stage.ReadOwn? && s.tasks[max + 1].stage.ReadOwn?;
    var tr, steps :| IsRunWith(tr, steps, max, NoLapse) && tr[|tr| - 1] == s;
    assert ReadTwice(tr[|tr| - 1]);
  }

  /** Two dispatches for one key are past their lock at once. */
  ghost predicate ReadTwice(s: State) {
    exists t, u :: t != u && t in s.tasks && u in s.tasks && s.tasks[t].key == s.tasks[u].key
                   && s.tasks[t].stage.ReadOwn? && s.tasks[u].stage.ReadOwn?
  }

  const PHONE := Key(WhatsApp, "+97400000000")
  const PAIR: set<nat> := {0, 1}

  function Pair(stage: Stage, clock: nat): State {
    State([HOME, PHONE], map[0 := Task(HOME, 0, stage), 1 := Task(PHONE, 1, stage)], {}, clock)
  }

  /** Two dispatches from one user's two channels, each holding its own lock. */
  lemma TwoHolders(max: nat, lapse: Lapse)
    ensures Reaches(Pair(ReadOwn, 4), max, lapse)
  {
    TwoBegun(max, lapse);
    LockIsForKey([HOME, PHONE], 0, max);
    LockIsForKey([HOME, PHONE], 1, max);
    var s := GoOn(Pair(WaitOwn, 2), Act(0, AcquireOwn), max, lapse);
    s := GoOn(s, Act(1, AcquireOwn), max, lapse);
    assert s == Pair(ReadOwn, 4);
  }

  lemma TwoBegun(max: nat, lapse: Lapse)
    ensures Reaches(Pair(WaitOwn, 2), max, lapse)
  {
    StartReached(max, lapse);
    var s := GoOn(START, Begin(0, HOME), max, lapse);
    s := GoOn(s, Begin(1, PHONE), max, lapse);
    assert s == Pair(WaitOwn, 2);
  }

  /** Both have given up on their own run, and both runs are live. */
  predicate BothGaveUp(s: State) {
    && s.h == [HOME, PHONE] && s.tasks.Keys == PAIR && HOME in s.live && PHONE in s.live
    && s.tasks[0].key == HOME && s.tasks[0].fetch == 0 && s.tasks[0].stage.Resolve?
    && s.tasks[1].key == PHONE && s.tasks[1].fetch == 1 && s.tasks[1].stage.Resolve?
  }

  /** Both have seen the other's run. */
  predicate BothSee(s: State) {
    && s.h == [HOME, PHONE] && s.tasks.Keys == PAIR
    && s.tasks[0].fetch == 0 && s.tasks[0].stage.FetchOther? && s.tasks[0].stage.other == PHONE
    && s.tasks[1].fetch == 1 && s.tasks[1].stage.FetchOther? && s.tasks[1].stage.other == HOME
  }

  /** A run with that lapse alone, never two holders of one key, that ends with the pair waiting
      for each other. */
  ghost predicate DeadlocksPair(tr: seq<State>, steps: seq<Step>, max: nat, lapse: Lapse) {
    && IsRunWith(tr, steps, max, lapse)
    && (forall j :: 0 <= j < |tr| ==> SoleHolders(tr[j]))
    && CircularWait(tr[|tr| - 1], PAIR, max)
  }

  /** If both find the other channel live, they end up waiting for each other. */
  lemma Embrace(s: State, max: nat, lapse: Lapse)
    requires max >= 2 && Reaches(s, max, lapse) && BothGaveUp(s)
    ensures exists tr, steps :: DeadlocksPair(tr, steps, max, lapse)
  {
    SeeEachOther(s, max, lapse);
    var e :| Reaches(e, max, lapse) && BothSee(e);
    e := GoOn(e, Act(0, FetchLock), max, lapse);
    e := GoOn(e, Act(1, FetchLock), max, lapse);
    EachWaits(e, max);
    var tr, steps :| IsRunWith(tr, steps, max, lapse) && tr[|tr| - 1] == e;
    TwoKeysStay(tr, steps, max);
    assert DeadlocksPair(tr, steps, max, lapse);
  }

  lemma SeeEachOther(s: State, max: nat, lapse: Lapse)
    requires Reaches(s, max, lapse) && BothGaveUp(s)
    ensures exists s' :: Reaches(s', max, lapse) && BothSee(s')
  {
    var s' := GoOn(s, Act(0, SeeOther(PHONE)), max, lapse);
    s' := GoOn(s', Act(1, SeeOther(HOME)), max, lapse);
    assert BothSee(s');
  }

  lemma EachWaits(s: State, max: nat)
    requires max >= 2 && s.h == [HOME, PHONE, PHONE, HOME] && s.tasks.Keys == PAIR
    requires s.tasks[0].fetch == 0 && s.tasks[0].stage.WaitOther? && s.tasks[0].stage.ofetch == 2
    requires s.tasks[1].fetch == 1 && s.tasks[1].stage.WaitOther? && s.tasks[1].stage.ofetch == 3
    ensures CircularWait(s, PAIR, max)
  {
    SecondFetchesReuse(s.h, max);
    assert 1 in s.tasks[1].Holdings() && 0 in s.tasks[0].Holdings();
    assert WaitsFor(s, 0, 1, max) && WaitsFor(s, 1, 0, max);
    assert BlockedBy(s, 0, PAIR, max) && BlockedBy(s, 1, PAIR, max);
  }

  lemma SecondFetchesReuse(h: seq<Key>, max: nat)
    requires h == [HOME, PHONE, PHONE, HOME] && max >= 2
    ensures LockAt(h, 2, max) == LockAt(h, 1, max) && LockAt(h, 3, max) == LockAt(h, 0, max)
  {
    assert OthersSince(h[..2], 1) == {};
    assert OthersSince(h[..3], 0) <= {PHONE};
    SubsetCardinality(OthersSince(h[..3], 0), {PHONE});
    SameLockIff(h, 1, 2, max);
    SameLockIff(h, 0, 3, max);
  }

  lemma {:induction false} TouchesGrow(tr: seq<State>, steps: seq<Step>, max: nat, i: nat, j: nat)
    requires IsRun(tr, steps, max) && i <= j < |tr|
    ensures tr[i].h <= tr[j].h
    decreases j
  {
    if i < j {
      TouchesGrow(tr, steps, max, i, j - 1);
    }
  }

  /** A run that touches two keys only evicts nothing under a cap of two or more. */
  lemma TwoKeysStay(tr: seq<State>, steps: seq<Step>, max: nat)
    requires max >= 2 && IsRun(tr, steps, max)
    requires var h := tr[|tr| - 1].h; forall f :: 0 <= f < |h| ==> h[f] == HOME || h[f] == PHONE
    ensures forall j :: 0 <= j < |tr| ==> SoleHolders(tr[j])
  {
    forall j | 0 <= j < |tr| ensures SoleHolders(tr[j]) {
      TouchesGrow(tr, steps, max, j, |tr| - 1);
      assert forall f :: 0 <= f < |tr[j].h| ==> tr[j].h[f] == tr[|tr| - 1].h[f];
      forall f | 0 <= f < |tr[j].h| ensures |OthersSince(tr[j].h, f)| < max {
        OneOther(tr[j].h, f);
      }
      RunsAreExclusive(tr, steps, max, j);
      WindowGivesSoleHolders(tr[j], max);
    }
  }

  lemma OneOther(h: seq<Key>, f: nat)
    requires f < |h| && forall i :: 0 <= i < |h| ==> h[i] == HOME || h[i] == PHONE
    ensures |OthersSince(h, f)| <= 1
  {
    var other := if h[f] == HOME then PHONE else HOME;
    assert OthersSince(h, f) <= {other};
    SubsetCardinality(OthersSince(h, f), {other});
  }

  /** A failed revive that leaves its run non-terminal can deadlock two dispatches. */
  lemma LeakyReviveDeadlocks(max: nat)
    requires max >= 2
    ensures exists tr, steps :: DeadlocksPair(tr, steps, max, LeakyRevive)
  {
    TwoHolders(max, LeakyRevive);
    var s := GoOn(Pair(ReadOwn, 4), Act(0, OwnRevive), max, LeakyRevive);
    s := GoOn(s, Act(0, ReviveFailed(true)), max, LeakyRevive);
    s := GoOn(s, Act(1, OwnRevive), max, LeakyRevive);
    s := GoOn(s, Act(1, ReviveFailed(true)), max, LeakyRevive);
    Embrace(s, max, LeakyRevive);
  }

  /** So can a resume that changes run liveness without taking the key's lock. A lockless step that
      brings a key to life stands for a resume_external that began while the run was live, whose
      own copy of the run is saved after the run has ended: a new resume of an ended run is refused
      (app/shared/workflow/executor.py:179-184). */
  lemma LocklessResumeDeadlocks(max: nat)
    requires max >= 2
    ensures exists tr, steps :: DeadlocksPair(tr, steps, max, LocklessResume)
  {
    TwoHolders(max, LocklessResume);
    var s := GoOn(Pair(ReadOwn, 4), Act(0, OwnDead), max, LocklessResume);
    s := GoOn(s, Act(1, OwnDead), max, LocklessResume);
    s := GoOn(s, Lockless(HOME, true), max, LocklessResume);
    s := GoOn(s, Lockless(PHONE, true), max, LocklessResume);
    Embrace(s, max, LocklessResume);
  }
}
