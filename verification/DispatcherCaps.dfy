/**
 The third assumption of the dispatcher proofs, that no lock in use is evicted, is needed too:
 without it disciplined dispatches can deadlock, for exactly the caps of two and more.
 */
module DispatcherCaps {
  import opened Sequences
  import opened LockTable
  import opened Dispatcher
  import opened DispatcherWitnesses

  // ----- a deadlock after an eviction -----

  /** Task t with its own key and touch. */
  predicate Is(s: State, t: nat, key: Key, fetch: nat) {
    t in s.tasks && s.tasks[t].key == key && s.tasks[t].fetch == fetch
  }

  /** Tasks 1 to max wait for their own locks, and there is no task beyond last. */
  ghost predicate CrowdWaits(s: State, max: nat, last: nat) {
    forall t :: t in s.tasks ==> t <= last && (0 < t <= max ==> s.tasks[t].stage.WaitOwn?)
  }

  function Evicting(max: nat): seq<Key> {
    [HOME] + Callers(max) + [HOME]
  }

  /** A lock is free for a task when nobody else holds a lock of its key. */
  lemma FreeKey(s: State, t: nat, f: nat, max: nat)
    requires f < |s.h|
    requires forall u, g :: u in s.tasks && u != t && g in s.tasks[u].Holdings() && g < |s.h| ==> s.h[g] != s.h[f]
    ensures FreeFor(s.h, s.tasks, t, f, max)
  {
    forall u, g | u in s.tasks && u != t && g in s.tasks[u].Holdings() && g < |s.h|
      ensures LockAt(s.h, g, max) != LockAt(s.h, f, max)
    {
      LockIsForKey(s.h, g, max);
      LockIsForKey(s.h, f, max);
    }
  }

  /** HOME's two holders, the first still reading its run and the second past giving up on it. */
  predicate HomeTasks(s: State, max: nat) {
    Is(s, 0, HOME, 0) && s.tasks[0].stage.ReadOwn? && Is(s, max + 1, HOME, max + 1)
  }

  /** Task t has seen a live run of another key and is about to fetch its lock. */
  predicate Sees(s: State, t: nat, other: Key) {
    t in s.tasks && s.tasks[t].stage.FetchOther? && s.tasks[t].stage.other == other
  }

  /** The second holder of HOME has given up on its run; PHONE has a task of its own. */
  ghost predicate PhoneTask(s: State, max: nat) {
    && s.h == Evicting(max) + [PHONE] && CrowdWaits(s, max, max + 2)
    && HomeTasks(s, max) && s.tasks[max + 1].stage.Resolve? && Is(s, max + 2, PHONE, max + 2)
  }

  lemma PhoneBegins(max: nat)
    ensures exists s :: Reaches(s, max, NoLapse) && PhoneTask(s, max) && s.live == {} && s.tasks[max + 2].stage.WaitOwn?
  {
    TwoHomeHolders(max);
    var s :| Reaches(s, max, NoLapse) && HomeHeldTwice(s, max);
    s := GoOn(s, Act(max + 1, OwnDead), max, NoLapse);
    s := GoOn(s, Begin(max + 2, PHONE), max, NoLapse);
    assert PhoneTask(s, max);
  }

  lemma PhoneResolves(max: nat)
    ensures exists s :: Reaches(s, max, NoLapse) && PhoneTask(s, max)
                        && s.live == {} && s.tasks[max + 2].stage.Resolve?
  {
    PhoneBegins(max);
    var s :| Reaches(s, max, NoLapse) && PhoneTask(s, max) && s.live == {} && s.tasks[max + 2].stage.WaitOwn?;
    FreeKey(s, max + 2, max + 2, max);
    s := PhoneActs(s, AcquireOwn, max);
    s := PhoneActs(s, OwnDead, max);
  }

  /** That task starts PHONE's run. */
  lemma PhoneLives(max: nat)
    ensures exists s :: Reaches(s, max, NoLapse) && PhoneTask(s, max)
                        && s.live == {PHONE} && s.tasks[max + 2].stage.Working?
  {
    PhoneResolves(max);
    var s :| Reaches(s, max, NoLapse) && PhoneTask(s, max) && s.live == {} && s.tasks[max + 2].stage.Resolve?;
    s := PhoneActs(s, NoOther, max);
    s := PhoneActs(s, SetOwn(true), max);
  }

  lemma PhoneActs(s: State, a: Action, max: nat) returns (s': State)
    requires Reaches(s, max, NoLapse) && PhoneTask(s, max) && CanAct(s, max + 2, a, max)
    requires !a.FetchLock? && !a.ReviveFailed?
    ensures s' == Apply(s, Act(max + 2, a)) && Reaches(s', max, NoLapse) && PhoneTask(s', max)
  {
    s' := GoOn(s, Act(max + 2, a), max, NoLapse);
  }

  /** HOME's second holder has seen it, before it ended and its task returned. */
  ghost predicate PhoneGone(s: State, max: nat) {
    && s.h == Evicting(max) + [PHONE] && CrowdWaits(s, max, max + 1) && s.live == {}
    && HomeTasks(s, max) && Sees(s, max + 1, PHONE)
  }

  lemma PhoneSeen(max: nat)
    ensures exists s :: Reaches(s, max, NoLapse) && PhoneGone(s, max)
  {
    PhoneLives(max);
    var s :| Reaches(s, max, NoLapse) && PhoneTask(s, max) && s.live == {PHONE} && s.tasks[max + 2].stage.Working?;
    s := GoOn(s, Act(max + 1, SeeOther(PHONE)), max, NoLapse);
    s := GoOn(s, Act(max + 2, SetOwn(false)), max, NoLapse);
    s := GoOn(s, Finish(max + 2), max, NoLapse);
    assert PhoneGone(s, max);
  }

  /** The next task of PHONE has given up on its run. */
  ghost predicate PhoneDead(s: State, max: nat) {
    && s.h == Evicting(max) + [PHONE, PHONE] && s.live == {}
    && HomeTasks(s, max) && Sees(s, max + 1, PHONE)
    && Is(s, max + 3, PHONE, max + 3) && s.tasks[max + 3].stage.Resolve?
  }

  lemma PhoneGivesUp(max: nat)
    ensures exists s :: Reaches(s, max, NoLapse) && PhoneDead(s, max)
  {
    PhoneSeen(max);
    var s :| Reaches(s, max, NoLapse) && PhoneGone(s, max);
    s := GoOn(s, Begin(max + 3, PHONE), max, NoLapse);
    FreeKey(s, max + 3, max + 3, max);
    s := GoOn(s, Act(max + 3, AcquireOwn), max, NoLapse);
    s := GoOn(s, Act(max + 3, OwnDead), max, NoLapse);
    assert PhoneDead(s, max);
  }

  /** Both the second holder of HOME and the task of PHONE have seen a live run of the other key. */
  ghost predicate EachSees(s: State, max: nat) {
    && s.h == Evicting(max) + [PHONE, PHONE]
    && Is(s, max + 1, HOME, max + 1) && Sees(s, max + 1, PHONE)
    && Is(s, max + 3, PHONE, max + 3) && Sees(s, max + 3, HOME)
  }

  /** HOME's first holder, under its evicted lock, starts HOME's run, which PHONE's task sees. */
  lemma HomeSeen(max: nat)
    ensures exists s :: Reaches(s, max, NoLapse) && EachSees(s, max)
  {
    PhoneGivesUp(max);
    var s :| Reaches(s, max, NoLapse) && PhoneDead(s, max);
    s := GoOn(s, Act(0, OwnDead), max, NoLapse);
    s := GoOn(s, Act(0, NoOther), max, NoLapse);
    s := GoOn(s, Act(0, SetOwn(true)), max, NoLapse);
    s := GoOn(s, Act(max + 3, SeeOther(HOME)), max, NoLapse);
    assert EachSees(s, max);
  }

  /** The touches of the whole run. */
  function Touches(max: nat): seq<Key> {
    Evicting(max) + [PHONE, PHONE, PHONE, HOME]
  }

  lemma LastFetchesReuse(max: nat)
    requires max >= 2
    ensures var h := Touches(max);
            && LockAt(h, max + 4, max) == LockAt(h, max + 3, max)
            && LockAt(h, max + 5, max) == LockAt(h, max + 1, max)
  {
    var h := Touches(max);
    assert h[..max + 4][max + 4..] == [] && h[max + 3] == h[max + 4] == PHONE;
    assert OthersSince(h[..max + 4], max + 3) == {};
    assert h[..max + 5][max + 2..] == [PHONE, PHONE, PHONE] && h[max + 1] == h[max + 5] == HOME;
    assert OthersSince(h[..max + 5], max + 1) <= {PHONE};
    SubsetCardinality(OthersSince(h[..max + 5], max + 1), {PHONE});
    SameLockWithinWindow(h, max + 3, max + 4, max);
    SameLockWithinWindow(h, max + 1, max + 5, max);
  }

  /** Task t waits for the lock that touch f got for another key. */
  predicate AwaitsTouch(s: State, t: nat, f: nat) {
    t in s.tasks && s.tasks[t].stage.WaitOther? && s.tasks[t].stage.ofetch == f
  }

  lemma LastTwoWait(s: State, max: nat)
    requires max >= 2 && s.h == Touches(max)
    requires Is(s, max + 1, HOME, max + 1) && AwaitsTouch(s, max + 1, max + 4)
    requires Is(s, max + 3, PHONE, max + 3) && AwaitsTouch(s, max + 3, max + 5)
    ensures CircularWait(s, {max + 1, max + 3}, max)
  {
    var group := {max + 1, max + 3};
    LastFetchesReuse(max);
    assert max + 1 in s.tasks[max + 1].Holdings() && max + 3 in s.tasks[max + 3].Holdings();
    assert WaitsFor(s, max + 1, max + 3, max) && WaitsFor(s, max + 3, max + 1, max);
    assert BlockedBy(s, max + 1, group, max) && BlockedBy(s, max + 3, group, max);
  }

  /** A run that respects the two assumptions about runs and ends with a group waiting in a circle. */
  ghost predicate Deadlocks(tr: seq<State>, steps: seq<Step>, group: set<nat>, max: nat) {
    IsRunWith(tr, steps, max, NoLapse) && CircularWait(tr[|tr| - 1], group, max)
  }

  /** Every step respects the two assumptions about runs, and still two dispatches deadlock. */
  lemma EvictedLockDeadlocks(max: nat)
    requires max >= 2
    ensures exists tr, steps, group :: Deadlocks(tr, steps, group, max)
  {
    HomeSeen(max);
    var s :| Reaches(s, max, NoLapse) && EachSees(s, max);
    s := GoOn(s, Act(max + 1, FetchLock), max, NoLapse);
    s := GoOn(s, Act(max + 3, FetchLock), max, NoLapse);
    assert s.h == Touches(max);
    LastTwoWait(s, max);
    var tr, steps :| IsRunWith(tr, steps, max, NoLapse) && tr[|tr| - 1] == s;
    assert Deadlocks(tr, steps, {max + 1, max + 3}, max);
  }

  // ----- no deadlock under a smaller cap -----

  /** Another key touched between two touches of a key evicts it when the cap is at most one. */
  lemma OtherKeyEvicts(h: seq<Key>, g: nat, a: nat, f: nat, max: nat)
    requires g < a < f < |h| && h[g] == h[f] && h[a] != h[g] && max <= 1
    ensures LockAt(h, g, max) != LockAt(h, f, max)
  {
    EvictingPair(h, g, a, f, max);
    SameLockChain(h, g, f, max);
  }

  lemma EvictingPair(h: seq<Key>, g: nat, a: nat, f: nat, max: nat)
    requires g < a < f < |h| && h[g] == h[f] && h[a] != h[g] && max <= 1
    ensures exists p, q :: EvictedBetween(h, g, f, p, q, max)
  {
    var p := LastTouch(h, g, a + 1);
    NotTouched(h, p, a + 1);
    var q := NextTouch(h, h[g], a, f);
    OneSince(h[..q], p, a);
    assert EvictedBetween(h, g, f, p, q, max);
  }

  lemma OneSince(h: seq<Key>, p: nat, a: nat)
    requires p < a < |h| && h[a] != h[p]
    ensures |OthersSince(h, p)| >= 1
  {
    assert h[p + 1..][a - p - 1] == h[a];
    SubsetCardinality({h[a]}, OthersSince(h, p));
  }

  lemma NextTouch(h: seq<Key>, k: Key, a: nat, f: nat) returns (q: nat)
    requires a < f < |h| && h[f] == k
    ensures a < q <= f && h[q] == k && forall i :: a < i < q ==> h[i] != k
  {
    q := a + 1;
    while h[q] != k
      invariant a < q <= f && forall i :: a < i < q ==> h[i] != k
      decreases f - q
    {
      q := q + 1;
    }
  }

  /** Along a wait edge between two blocked tasks the own fetch grows, whatever happens to the runs. */
  lemma SmallCapEdge(s: State, t: nat, u: nat, group: set<nat>, max: nat)
    requires max <= 1 && WellFormed(s) && WaitsFor(s, t, u, max)
    requires s.tasks[t].stage.WaitOther? && BlockedBy(s, u, group, max)
    ensures s.tasks[u].stage.WaitOther? && s.tasks[t].fetch < s.tasks[u].fetch
  {
    var a, f := s.tasks[t].fetch, s.tasks[t].stage.ofetch;
    var g :| g in s.tasks[u].Holdings() && g < |s.h| && LockAt(s.h, g, max) == LockAt(s.h, f, max);
    LockIsForKey(s.h, f, max);
    LockIsForKey(s.h, g, max);
    var v :| v in group && WaitsFor(s, u, v, max);
    assert g == s.tasks[u].fetch && a != g;
    if g < a {
      OtherKeyEvicts(s.h, g, a, f, max);
    }
  }

  lemma LatestFetch(s: State, ts: set<nat>) returns (m: nat)
    requires ts != {} && forall t :: t in ts ==> t in s.tasks
    ensures m in ts && forall t :: t in ts ==> s.tasks[t].fetch <= s.tasks[m].fetch
  {
    m :| m in ts;
    if ts != {m} {
      var r := LatestFetch(s, ts - {m});
      if s.tasks[r].fetch > s.tasks[m].fetch {
        m := r;
      }
    }
  }

  lemma SmallCapNeverDeadlocks(tr: seq<State>, steps: seq<Step>, max: nat, i: nat, group: set<nat>)
    requires IsRun(tr, steps, max) && i < |tr| && max <= 1
    ensures !CircularWait(tr[i], group, max)
  {
    var s := tr[i];
    RunsAreExclusive(tr, steps, max, i);
    if CircularWait(s, group, max) {
      CircularWaitHasWaiters(s, group, max);
      var m := LatestFetch(s, Waiters(s, group));
      assert BlockedBy(s, m, group, max);
      var u :| u in group && WaitsFor(s, m, u, max);
      assert BlockedBy(s, u, group, max);
      SmallCapEdge(s, m, u, group, max);
    }
  }

  /** The two assumptions about runs alone exclude deadlock exactly for caps below two. */
  lemma DeadlockPossibleIff(max: nat)
    ensures (exists tr, steps, group :: Deadlocks(tr, steps, group, max)) <==> max >= 2
  {
    if max >= 2 {
      EvictedLockDeadlocks(max);
    } else {
      forall tr, steps, group ensures !Deadlocks(tr, steps, group, max) {
        if IsRun(tr, steps, max) {
          SmallCapNeverDeadlocks(tr, steps, max, |tr| - 1, group);
        }
      }
    }
  }
}
