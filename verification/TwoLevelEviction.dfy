/**
 What an eviction is worth in the two-level cache: which answers of an instance can still be older
 than a given write (app/services/cms/cache_redis.py, invalidate and _on_message).
 */
module TwoLevelEviction {
  import opened Shared
  import opened CmsTypes
  import opened TwoLevelCache
  import opened TwoLevelWitness

  /** A message evicts its id, or everything for the clear message, from one instance's first level
      and changes nothing else anywhere. */
  lemma MessageEvicts(s: State, i: nat, message: string, timing: Timing, s': State)
    requires s' == Apply(s, Message(i, message), timing)
    ensures forall id :: id in LocalOf(s', i) <==> id in LocalOf(s, i) && id != message && message != CLEAR
    ensures forall id :: id in LocalOf(s', i) ==> LocalOf(s', i)[id] == LocalOf(s, i)[id]
    ensures forall j :: j != i ==> LocalOf(s', j) == LocalOf(s, j)
    ensures s' == s.(l1 := s'.l1)
  {
  }

  // ----- no older than a write -----

  /** The record is that of write w of the key, or of a later one. */
  ghost predicate New(s: State, id: string, record: ConfigRecord, w: nat) {
    exists v :: w <= v < |WritesOf(s, id)| && WritesOf(s, id)[v].record == Some(record)
  }

  predicate HasStoreAnswer(task: Task, id: string) {
    task.id == id && (task.stage.StoreSaid? || task.stage.AskSet?)
  }

  predicate HasSharedAnswer(task: Task, i: nat, id: string) {
    task.instance == i && task.id == id && task.stage.SharedSaid? && task.stage.raw.Some?
  }

  /** Nothing older than write w is in the shared level, or on its way there from the store. */
  ghost predicate SharedNew(s: State, id: string, w: nat) {
    && (Hit(s.l2, id, s.now).Some? ==> New(s, id, Hit(s.l2, id, s.now).value, w))
    && forall t :: t in s.tasks && HasStoreAnswer(s.tasks[t], id) ==> New(s, id, s.tasks[t].stage.record, w)
  }

  /** Nothing older is in the instance's own level, or on its way there from the shared one. */
  ghost predicate LocalNew(s: State, i: nat, id: string, w: nat) {
    && (Hit(LocalOf(s, i), id, s.now).Some? ==> New(s, id, Hit(LocalOf(s, i), id, s.now).value, w))
    && forall t :: t in s.tasks && HasSharedAnswer(s.tasks[t], i, id) ==>
                     New(s, id, s.tasks[t].stage.raw.value, w)
  }

  lemma NewStays(s: State, step: Step, timing: Timing, id: string, record: ConfigRecord, w: nat)
    requires Enabled(s, step, timing) && New(s, id, record, w)
    ensures New(Apply(s, step, timing), id, record, w)
  {
    var s' := Apply(s, step, timing);
    var v :| w <= v < |WritesOf(s, id)| && WritesOf(s, id)[v].record == Some(record);
    assert v < |WritesOf(s', id)| && WritesOf(s', id)[v] == WritesOf(s, id)[v];
  }

  lemma CurrentIsNew(s: State, id: string, w: nat)
    requires w < |WritesOf(s, id)| && Current(WritesOf(s, id)).Some?
    ensures New(s, id, Current(WritesOf(s, id)).value, w)
  {
    assert WritesOf(s, id)[|WritesOf(s, id)| - 1].record == Current(WritesOf(s, id));
  }

  /** A read that has an answer from the store has it since this step or had it before. */
  lemma StoreAnswerStep(s: State, step: Step, timing: Timing, t: nat, id: string, w: nat, s': State)
    requires Enabled(s, step, timing) && s' == Apply(s, step, timing)
    requires t in s'.tasks && HasStoreAnswer(s'.tasks[t], id) && w < |WritesOf(s, id)|
    requires t in s.tasks && HasStoreAnswer(s.tasks[t], id) ==> New(s, id, s.tasks[t].stage.record, w)
    ensures New(s', id, s'.tasks[t].stage.record, w)
  {
    if step.StoreReplies? && step.t == t {
      CurrentIsNew(s, id, w);
    }
    NewStays(s, step, timing, id, s'.tasks[t].stage.record, w);
  }

  lemma {:induction false} StoreGrew(tr: seq<State>, steps: seq<Step>, timing: Timing, p: nat, j: nat, id: string)
    requires Leads(tr, steps, timing) && p < j < |tr| && steps[p].SaveWrite? && steps[p].id == id
    ensures |WritesOf(tr[p], id)| < |WritesOf(tr[j], id)|
    decreases j
  {
    if p + 1 < j {
      StoreGrew(tr, steps, timing, p, j - 1, id);
      StepGrows(tr[j - 1], steps[j - 1], timing);
    }
  }

  /** A read of the instance that has an answer from the shared level, likewise. */
  lemma SharedAnswerStep(s: State, step: Step, timing: Timing, t: nat, i: nat, id: string, w: nat, s': State)
    requires Enabled(s, step, timing) && s' == Apply(s, step, timing) && SharedNew(s, id, w)
    requires t in s'.tasks && HasSharedAnswer(s'.tasks[t], i, id)
    requires t in s.tasks && HasSharedAnswer(s.tasks[t], i, id) ==> New(s, id, s.tasks[t].stage.raw.value, w)
    ensures New(s', id, s'.tasks[t].stage.raw.value, w)
  {
    NewStays(s, step, timing, id, s'.tasks[t].stage.raw.value, w);
  }

  lemma StepKeepsSharedNew(s: State, step: Step, timing: Timing, id: string, w: nat, s': State)
    requires Enabled(s, step, timing) && s' == Apply(s, step, timing)
    requires w < |WritesOf(s, id)| && SharedNew(s, id, w)
    ensures w < |WritesOf(s', id)| && SharedNew(s', id, w)
  {
    if Hit(s'.l2, id, s'.now).Some? {
      var record := s'.l2[id].record;
      if step.SetShared? && s.tasks[step.t].id == id {
        assert HasStoreAnswer(s.tasks[step.t], id);
      }
      NewStays(s, step, timing, id, record, w);
    }
    forall t | t in s'.tasks && HasStoreAnswer(s'.tasks[t], id)
      ensures New(s', id, s'.tasks[t].stage.record, w)
    {
      StoreAnswerStep(s, step, timing, t, id, w, s');
    }
  }

  lemma StepKeepsLocalNew(s: State, step: Step, timing: Timing, i: nat, id: string, w: nat, s': State)
    requires Enabled(s, step, timing) && s' == Apply(s, step, timing)
    requires SharedNew(s, id, w) && LocalNew(s, i, id, w)
    ensures LocalNew(s', i, id, w)
  {
    if Hit(LocalOf(s', i), id, s'.now).Some? {
      var record := LocalOf(s', i)[id].record;
      if step.FillLocal? && s.tasks[step.t].id == id {
        assert HasStoreAnswer(s.tasks[step.t], id);
      }
      NewStays(s, step, timing, id, record, w);
    }
    forall t | t in s'.tasks && HasSharedAnswer(s'.tasks[t], i, id)
      ensures New(s', id, s'.tasks[t].stage.raw.value, w)
    {
      SharedAnswerStep(s, step, timing, t, i, id, w, s');
    }
  }

  /** An answer of the instance for the key. */
  predicate AnswerFor(r: Return, i: nat, id: string) {
    r.instance == i && r.id == id
  }

  lemma StepAnswersNew(s: State, step: Step, timing: Timing, i: nat, id: string, w: nat, s': State)
    requires Enabled(s, step, timing) && s' == Apply(s, step, timing)
    requires SharedNew(s, id, w) && LocalNew(s, i, id, w)
    ensures s.returned <= s'.returned
    ensures forall k :: |s.returned| <= k < |s'.returned| && AnswerFor(s'.returned[k], i, id) ==>
                          New(s', id, s'.returned[k].record, w)
  {
    if s'.returned != s.returned && AnswerFor(s'.returned[|s.returned|], i, id) {
      if step.SetShared? {
        assert HasStoreAnswer(s.tasks[step.t], id);
      }
      NewStays(s, step, timing, id, s'.returned[|s.returned|].record, w);
    }
  }

  /** Every answer of the instance for the key given between the two states is new. */
  ghost predicate AnsweredNew(s: State, s': State, i: nat, id: string, w: nat) {
    && s.returned <= s'.returned
    && forall k :: |s.returned| <= k < |s'.returned| && AnswerFor(s'.returned[k], i, id) ==>
                     New(s', id, s'.returned[k].record, w)
  }

  /** Nothing older than the write can reach an answer of the instance any more. */
  ghost predicate AllNew(s: State, i: nat, id: string, w: nat) {
    w < |WritesOf(s, id)| && SharedNew(s, id, w) && LocalNew(s, i, id, w)
  }

  lemma StepKeepsAllNew(s0: State, s: State, step: Step, timing: Timing, i: nat, id: string, w: nat, s': State)
    requires Enabled(s, step, timing) && s' == Apply(s, step, timing)
    requires AllNew(s, i, id, w) && AnsweredNew(s0, s, i, id, w)
    ensures AllNew(s', i, id, w) && AnsweredNew(s0, s', i, id, w)
  {
    StepKeepsSharedNew(s, step, timing, id, w, s');
    StepKeepsLocalNew(s, step, timing, i, id, w, s');
    StepAnswersNew(s, step, timing, i, id, w, s');
    forall k | |s0.returned| <= k < |s'.returned| && AnswerFor(s'.returned[k], i, id)
      ensures New(s', id, s'.returned[k].record, w)
    {
      if k < |s.returned| {
        NewStays(s, step, timing, id, s.returned[k].record, w);
      }
    }
  }

  lemma NothingAnswered(s: State, i: nat, id: string, w: nat)
    ensures AnsweredNew(s, s, i, id, w)
  {
  }

  lemma NewAfterStep(tr: seq<State>, steps: seq<Step>, timing: Timing, a: nat, b: nat, i: nat, id: string, w: nat)
    requires Leads(tr, steps, timing) && a < b < |tr|
    requires AllNew(tr[b - 1], i, id, w) && AnsweredNew(tr[a], tr[b - 1], i, id, w)
    ensures AllNew(tr[b], i, id, w) && AnsweredNew(tr[a], tr[b], i, id, w)
  {
    StepKeepsAllNew(tr[a], tr[b - 1], steps[b - 1], timing, i, id, w, tr[b]);
  }

  /** From a state that holds nothing older than the write, whatever happens, every later answer
      is the write's or that of a later one. */
  lemma {:induction false} NewForEver(tr: seq<State>, steps: seq<Step>, timing: Timing, a: nat, b: nat,
                                      i: nat, id: string, w: nat)
    requires Leads(tr, steps, timing) && a <= b < |tr| && AllNew(tr[a], i, id, w)
    ensures AllNew(tr[b], i, id, w) && AnsweredNew(tr[a], tr[b], i, id, w)
    decreases b
  {
    if a == b {
      NothingAnswered(tr[a], i, id, w);
    } else {
      NewForEver(tr, steps, timing, a, b - 1, i, id, w);
      NewAfterStep(tr, steps, timing, a, b, i, id, w);
    }
  }

  // ----- exactly when -----

  /** Some steps lead from s to s'. */
  ghost predicate Goes(s: State, s': State, timing: Timing) {
    exists tr, steps :: Leads(tr, steps, timing) && tr[0] == s && tr[|tr| - 1] == s'
  }

  lemma Stay(s: State, timing: Timing)
    ensures Goes(s, s, timing)
  {
    assert Leads([s], [], timing);
    assert [s][0] == s && [s][|[s]| - 1] == s;
  }

  lemma GoFurther(s: State, s': State, step: Step, timing: Timing) returns (s'': State)
    requires Goes(s, s', timing) && Enabled(s', step, timing)
    ensures s'' == Apply(s', step, timing) && Goes(s, s'', timing)
  {
    s'' := Apply(s', step, timing);
    var tr, steps :| Leads(tr, steps, timing) && tr[0] == s && tr[|tr| - 1] == s';
    var tr', steps' := ExtendRun(tr, steps, timing, step);
    assert Leads(tr', steps', timing) && tr'[0] == s && tr'[|tr'| - 1] == s'';
  }

  /** Whatever happens from s on, every answer of the instance for the key is new. */
  ghost predicate AnswersStayNew(s: State, i: nat, id: string, w: nat, timing: Timing) {
    forall s' :: Goes(s, s', timing) ==> AnsweredNew(s, s', i, id, w)
  }

  /** The last answer is the instance's, for the key, and older than the write. */
  ghost predicate LastIsOld(s: State, i: nat, id: string, w: nat) {
    s.returned != [] && AnswerFor(s.returned[|s.returned| - 1], i, id)
    && !New(s, id, s.returned[|s.returned| - 1].record, w)
  }

  lemma OldIsNotNew(s: State, s': State, i: nat, id: string, w: nat, timing: Timing)
    requires Goes(s, s', timing) && LastIsOld(s', i, id, w) && |s.returned| < |s'.returned|
    ensures !AnswersStayNew(s, i, id, w, timing)
  {
    assert !AnsweredNew(s, s', i, id, w);
  }

  lemma SameWritesSameNew(s: State, s': State, id: string, record: ConfigRecord, w: nat)
    requires WritesOf(s, id) == WritesOf(s', id)
    ensures New(s, id, record, w) <==> New(s', id, record, w)
  {
  }

  lemma Unused(ks: set<nat>) returns (t: nat)
    ensures forall k :: k in ks ==> k < t
  {
    t := 0;
    if ks != {} {
      var k :| k in ks;
      var u := Unused(ks - {k});
      t := if u <= k then k + 1 else u;
      assert forall j :: j in ks ==> j == k || j in ks - {k};
    }
  }

  lemma OldInLocal(s: State, i: nat, id: string, w: nat, timing: Timing)
    requires Hit(LocalOf(s, i), id, s.now).Some? && !New(s, id, Hit(LocalOf(s, i), id, s.now).value, w)
    ensures !AnswersStayNew(s, i, id, w, timing)
  {
    Stay(s, timing);
    var t := Unused(s.tasks.Keys);
    var s' := GoFurther(s, s, Get(t, i, id), timing);
    SameWritesSameNew(s, s', id, Hit(LocalOf(s, i), id, s.now).value, w);
    OldIsNotNew(s, s', i, id, w, timing);
  }

  lemma OldAnswered(s: State, t: nat, i: nat, id: string, w: nat, timing: Timing)
    requires t in s.tasks && HasSharedAnswer(s.tasks[t], i, id) && !New(s, id, s.tasks[t].stage.raw.value, w)
    ensures !AnswersStayNew(s, i, id, w, timing)
  {
    Stay(s, timing);
    var s' := GoFurther(s, s, Resume(t), timing);
    SameWritesSameNew(s, s', id, s.tasks[t].stage.raw.value, w);
    OldIsNotNew(s, s', i, id, w, timing);
  }

  /** From s on: the instance forgets the key, and reads it again from the shared level. */
  lemma OldInShared(s: State, s0: State, i: nat, id: string, w: nat, timing: Timing)
    requires Goes(s, s0, timing) && |s.returned| <= |s0.returned|
    requires Hit(s0.l2, id, s0.now).Some? && !New(s0, id, Hit(s0.l2, id, s0.now).value, w)
    ensures !AnswersStayNew(s, i, id, w, timing)
  {
    var t := Unused(s0.tasks.Keys);
    var s' := GoFurther(s, s0, Message(i, id), timing);
    s' := GoFurther(s, s', Get(t, i, id), timing);
    s' := GoFurther(s, s', SharedReplies(t), timing);
    s' := GoFurther(s, s', Resume(t), timing);
    SameWritesSameNew(s0, s', id, Hit(s0.l2, id, s0.now).value, w);
    OldIsNotNew(s, s', i, id, w, timing);
  }

  lemma OldStored(s: State, s0: State, t: nat, i: nat, id: string, w: nat, timing: Timing)
    requires timing.Valid() && Goes(s, s0, timing) && |s.returned| <= |s0.returned|
    requires t in s0.tasks && s0.tasks[t].id == id && s0.tasks[t].stage.AskSet?
    requires !New(s0, id, s0.tasks[t].stage.record, w)
    ensures !AnswersStayNew(s, i, id, w, timing)
  {
    var s' := GoFurther(s, s0, SetShared(t, timing.ttl), timing);
    SameWritesSameNew(s0, s', id, s0.tasks[t].stage.record, w);
    OldInShared(s, s', i, id, w, timing);
  }

  lemma OldFromStore(s: State, t: nat, i: nat, id: string, w: nat, timing: Timing)
    requires timing.Valid() && t in s.tasks && HasStoreAnswer(s.tasks[t], id)
    requires !New(s, id, s.tasks[t].stage.record, w)
    ensures !AnswersStayNew(s, i, id, w, timing)
  {
    Stay(s, timing);
    if s.tasks[t].stage.StoreSaid? {
      var s' := GoFurther(s, s, FillLocal(t), timing);
      SameWritesSameNew(s, s', id, s.tasks[t].stage.record, w);
      OldStored(s, s', t, i, id, w, timing);
    } else {
      OldStored(s, s, t, i, id, w, timing);
    }
  }

  lemma HoldsNothingOlder(s: State, i: nat, id: string, w: nat, timing: Timing)
    requires timing.Valid() && AnswersStayNew(s, i, id, w, timing)
    ensures SharedNew(s, id, w) && LocalNew(s, i, id, w)
  {
    if Hit(s.l2, id, s.now).Some? && !New(s, id, Hit(s.l2, id, s.now).value, w) {
      Stay(s, timing);
      OldInShared(s, s, i, id, w, timing);
    }
    if Hit(LocalOf(s, i), id, s.now).Some? && !New(s, id, Hit(LocalOf(s, i), id, s.now).value, w) {
      OldInLocal(s, i, id, w, timing);
    }
    forall t | t in s.tasks && HasStoreAnswer(s.tasks[t], id) ensures New(s, id, s.tasks[t].stage.record, w) {
      if !New(s, id, s.tasks[t].stage.record, w) {
        OldFromStore(s, t, i, id, w, timing);
      }
    }
    forall t | t in s.tasks && HasSharedAnswer(s.tasks[t], i, id) ensures New(s, id, s.tasks[t].stage.raw.value, w) {
      if !New(s, id, s.tasks[t].stage.raw.value, w) {
        OldAnswered(s, t, i, id, w, timing);
      }
    }
  }

  /**
   Exactly when an instance can give no answer older than a write any more, whatever happens next:
   iff no unexpired older record is in its own or the shared level, no read anywhere has one from
   the store, and none of its own reads has one from the shared level.
   */
  lemma StaysNewIff(s: State, i: nat, id: string, w: nat, timing: Timing)
    requires timing.Valid() && w < |WritesOf(s, id)|
    ensures AnswersStayNew(s, i, id, w, timing) <==> SharedNew(s, id, w) && LocalNew(s, i, id, w)
  {
    if SharedNew(s, id, w) && LocalNew(s, i, id, w) {
      forall s' | Goes(s, s', timing) ensures AnsweredNew(s, s', i, id, w) {
        var tr, steps :| Leads(tr, steps, timing) && tr[0] == s && tr[|tr| - 1] == s';
        NewForEver(tr, steps, timing, 0, |tr| - 1, i, id, w);
      }
    }
    if AnswersStayNew(s, i, id, w, timing) {
      HoldsNothingOlder(s, i, id, w, timing);
    }
  }

  // ----- over runs: after the eviction of a write -----

  /** Read t of state j began after step a. */
  predicate BeganAfter(steps: seq<Step>, a: nat, j: nat, t: nat)
    requires j <= |steps|
  {
    exists k :: a < k < j && steps[k].Get? && steps[k].t == t
  }

  /** No read of the key begun before step a is in flight in s, the state before step j. */
  predicate NoneFromBefore(s: State, steps: seq<Step>, a: nat, j: nat, id: string)
    requires j <= |steps|
  {
    forall t :: t in s.tasks && s.tasks[t].id == id ==> BeganAfter(steps, a, j, t)
  }

  /** The same for the reads of one instance. */
  predicate NoneHereFromBefore(s: State, steps: seq<Step>, a: nat, j: nat, i: nat, id: string)
    requires j <= |steps|
  {
    forall t :: t in s.tasks && s.tasks[t].id == id && s.tasks[t].instance == i ==> BeganAfter(steps, a, j, t)
  }

  /** A read in flight before a step did not begin with it. */
  lemma BeganEarlier(s: State, steps: seq<Step>, timing: Timing, a: nat, j: nat, t: nat)
    requires j < |steps| && Enabled(s, steps[j], timing) && t in s.tasks
    ensures BeganAfter(steps, a, j + 1, t) <==> BeganAfter(steps, a, j, t)
  {
  }

  /** Reads of state j begun after step p that have an answer from the store have a new one. */
  ghost predicate StoreReadersNew(s: State, steps: seq<Step>, p: nat, j: nat, id: string, w: nat)
    requires j <= |steps|
  {
    forall t :: t in s.tasks && HasStoreAnswer(s.tasks[t], id) && BeganAfter(steps, p, j, t) ==>
                  New(s, id, s.tasks[t].stage.record, w)
  }

  lemma StoreReadersStep(s: State, steps: seq<Step>, timing: Timing, p: nat, j: nat, id: string, w: nat, s': State)
    requires j < |steps| && Enabled(s, steps[j], timing) && s' == Apply(s, steps[j], timing)
    requires w < |WritesOf(s, id)| && StoreReadersNew(s, steps, p, j, id, w)
    ensures StoreReadersNew(s', steps, p, j + 1, id, w)
  {
    forall t | t in s'.tasks && HasStoreAnswer(s'.tasks[t], id) && BeganAfter(steps, p, j + 1, t)
      ensures New(s', id, s'.tasks[t].stage.record, w)
    {
      if t in s.tasks {
        BeganEarlier(s, steps, timing, p, j, t);
      }
      StoreAnswerStep(s, steps[j], timing, t, id, w, s');
    }
  }

  /** A read begun after the write gets the write's value or a later one from the store. */
  lemma {:induction false} StoreReadersAreNew(tr: seq<State>, steps: seq<Step>, timing: Timing, p: nat, j: nat,
                                              id: string)
    requires Leads(tr, steps, timing) && p < j < |tr| && steps[p].SaveWrite? && steps[p].id == id
    ensures StoreReadersNew(tr[j], steps, p, j, id, |WritesOf(tr[p], id)|)
    decreases j
  {
    if p + 1 < j {
      StoreReadersAreNew(tr, steps, timing, p, j - 1, id);
      StoreGrew(tr, steps, timing, p, j - 1, id);
      StoreReadersStep(tr[j - 1], steps, timing, p, j - 1, id, |WritesOf(tr[p], id)|, tr[j]);
    }
  }

  /** The deleted shared level holds and gets nothing older than the write. */
  lemma {:induction false} SharedStaysNew(tr: seq<State>, steps: seq<Step>, timing: Timing, p: nat, d: nat, j: nat,
                                          id: string)
    requires Leads(tr, steps, timing) && p < d < j < |tr| && steps[p].SaveWrite? && steps[p].id == id
    requires steps[d] == DeleteShared(id) && NoneFromBefore(tr[d], steps, p, d, id)
    ensures |WritesOf(tr[p], id)| < |WritesOf(tr[j], id)| && SharedNew(tr[j], id, |WritesOf(tr[p], id)|)
    decreases j
  {
    var w := |WritesOf(tr[p], id)|;
    if d + 1 < j {
      SharedStaysNew(tr, steps, timing, p, d, j - 1, id);
      StepKeepsSharedNew(tr[j - 1], steps[j - 1], timing, id, w, tr[j]);
    } else {
      StoreGrew(tr, steps, timing, p, d, id);
      StoreReadersAreNew(tr, steps, timing, p, d, id);
      DeleteMakesNew(tr[d], id, w, timing, tr[j]);
    }
  }

  lemma DeleteMakesNew(s: State, id: string, w: nat, timing: Timing, s': State)
    requires s' == Apply(s, DeleteShared(id), timing) && w < |WritesOf(s, id)|
    requires forall t :: t in s.tasks && HasStoreAnswer(s.tasks[t], id) ==> New(s, id, s.tasks[t].stage.record, w)
    ensures w < |WritesOf(s', id)| && SharedNew(s', id, w)
  {
    forall t | t in s'.tasks && HasStoreAnswer(s'.tasks[t], id) ensures New(s', id, s'.tasks[t].stage.record, w) {
      NewStays(s, DeleteShared(id), timing, id, s.tasks[t].stage.record, w);
    }
  }

  /** Reads of the instance begun after step d that have an answer from the shared level have a new one. */
  ghost predicate SharedReadersNew(s: State, steps: seq<Step>, d: nat, j: nat, i: nat, id: string, w: nat)
    requires j <= |steps|
  {
    forall t :: t in s.tasks && HasSharedAnswer(s.tasks[t], i, id) && BeganAfter(steps, d, j, t) ==>
                  New(s, id, s.tasks[t].stage.raw.value, w)
  }

  lemma SharedReadersStep(s: State, steps: seq<Step>, timing: Timing, d: nat, j: nat, i: nat, id: string, w: nat,
                          s': State)
    requires j < |steps| && Enabled(s, steps[j], timing) && s' == Apply(s, steps[j], timing)
    requires SharedNew(s, id, w) && SharedReadersNew(s, steps, d, j, i, id, w)
    ensures SharedReadersNew(s', steps, d, j + 1, i, id, w)
  {
    forall t | t in s'.tasks && HasSharedAnswer(s'.tasks[t], i, id) && BeganAfter(steps, d, j + 1, t)
      ensures New(s', id, s'.tasks[t].stage.raw.value, w)
    {
      if t in s.tasks {
        BeganEarlier(s, steps, timing, d, j, t);
      }
      SharedAnswerStep(s, steps[j], timing, t, i, id, w, s');
    }
  }

  lemma {:induction false} SharedReadersAreNew(tr: seq<State>, steps: seq<Step>, timing: Timing, p: nat, d: nat,
                                               j: nat, i: nat, id: string)
    requires Leads(tr, steps, timing) && p < d < j < |tr| && steps[p].SaveWrite? && steps[p].id == id
    requires steps[d] == DeleteShared(id) && NoneFromBefore(tr[d], steps, p, d, id)
    ensures SharedReadersNew(tr[j], steps, d, j, i, id, |WritesOf(tr[p], id)|)
    decreases j
  {
    if d + 1 < j {
      SharedReadersAreNew(tr, steps, timing, p, d, j - 1, i, id);
      SharedStaysNew(tr, steps, timing, p, d, j - 1, id);
      SharedReadersStep(tr[j - 1], steps, timing, d, j - 1, i, id, |WritesOf(tr[p], id)|, tr[j]);
    }
  }

  /** A write of the key, its delete from the shared level, and its eviction reaching instance i. */
  predicate Evicts(steps: seq<Step>, p: nat, d: nat, m: nat, i: nat, id: string) {
    && p < d < m < |steps|
    && steps[p].SaveWrite? && steps[p].id == id && steps[d] == DeleteShared(id)
    && (steps[m] == Message(i, id) || steps[m] == Message(i, CLEAR))
  }

  /**
   What an eviction guarantees, in every run: once the eviction of a write has reached the shared
   level and instance i, every later answer of i for the key is the write's or that of a later
   write, provided no read begun before the write was still in flight at the delete, and no read
   on i begun before the delete at the arrival of the message.
   */
  lemma EvictionHolds(tr: seq<State>, steps: seq<Step>, timing: Timing, p: nat, d: nat, m: nat, j: nat,
                      i: nat, id: string)
    requires IsRun(tr, steps, timing) && Evicts(steps, p, d, m, i, id) && m < j < |tr|
    requires NoneFromBefore(tr[d], steps, p, d, id) && NoneHereFromBefore(tr[m], steps, d, m, i, id)
    ensures AnsweredNew(tr[m + 1], tr[j], i, id, |WritesOf(tr[p], id)|)
  {
    var w := |WritesOf(tr[p], id)|;
    SharedStaysNew(tr, steps, timing, p, d, m, id);
    SharedStaysNew(tr, steps, timing, p, d, m + 1, id);
    SharedReadersAreNew(tr, steps, timing, p, d, m, i, id);
    EmptiedIsNew(tr[m], steps[m].message, timing, i, id, w, tr[m + 1]);
    NewForEver(tr, steps, timing, m + 1, j, i, id, w);
  }

  lemma EmptiedIsNew(s: State, message: string, timing: Timing, i: nat, id: string, w: nat, s': State)
    requires s' == Apply(s, Message(i, message), timing) && (message == id || message == CLEAR)
    requires forall t :: t in s.tasks && HasSharedAnswer(s.tasks[t], i, id) ==>
                           New(s, id, s.tasks[t].stage.raw.value, w)
    ensures LocalNew(s', i, id, w)
  {
    MessageEvicts(s, i, message, timing, s');
    forall t | t in s'.tasks && HasSharedAnswer(s'.tasks[t], i, id)
      ensures New(s', id, s'.tasks[t].stage.raw.value, w)
    {
      NewStays(s, Message(i, message), timing, id, s.tasks[t].stage.raw.value, w);
    }
  }

  // ----- a read that crosses the delete -----

  /** When no read of the key is in flight at a write, none that began before it ever is. */
  lemma {:induction false} NoneLater(tr: seq<State>, steps: seq<Step>, timing: Timing, p: nat, j: nat, id: string)
    requires Leads(tr, steps, timing) && p < j < |tr| && steps[p].SaveWrite?
    requires forall t :: t in tr[p].tasks ==> tr[p].tasks[t].id != id
    ensures NoneFromBefore(tr[j], steps, p, j, id)
    decreases j
  {
    if p + 1 == j {
      NoneAtWrite(tr[p], steps, timing, p, id, tr[j]);
    } else {
      NoneLater(tr, steps, timing, p, j - 1, id);
      NoneStep(tr[j - 1], steps, timing, p, j - 1, id, tr[j]);
    }
  }

  lemma NoneAtWrite(s: State, steps: seq<Step>, timing: Timing, p: nat, id: string, s': State)
    requires p < |steps| && steps[p].SaveWrite? && s' == Apply(s, steps[p], timing)
    requires forall t :: t in s.tasks ==> s.tasks[t].id != id
    ensures NoneFromBefore(s', steps, p, p + 1, id)
  {
  }

  lemma NoneStep(s: State, steps: seq<Step>, timing: Timing, p: nat, j: nat, id: string, s': State)
    requires p < j < |steps| && Enabled(s, steps[j], timing) && s' == Apply(s, steps[j], timing)
    requires NoneFromBefore(s, steps, p, j, id)
    ensures NoneFromBefore(s', steps, p, j + 1, id)
  {
    forall t | t in s'.tasks && s'.tasks[t].id == id ensures BeganAfter(steps, p, j + 1, t) {
      WasThere(s, steps[j], timing, t, s');
      if t in s.tasks {
        BeganEarlier(s, steps, timing, p, j, t);
      }
    }
  }

  lemma WasThere(s: State, step: Step, timing: Timing, t: nat, s': State)
    requires Enabled(s, step, timing) && s' == Apply(s, step, timing) && t in s'.tasks
    ensures if t in s.tasks then s.tasks[t].id == s'.tasks[t].id else step.Get? && step.t == t
  {
  }

  /** The eviction of a write at p is complete at m, every read in flight meanwhile began after the
      write, and yet instance i then answers with an older value. */
  ghost predicate OldAfterEviction(tr: seq<State>, steps: seq<Step>, timing: Timing, p: nat, d: nat, m: nat,
                                   i: nat, id: string) {
    && IsRun(tr, steps, timing) && Evicts(steps, p, d, m, i, id)
    && (forall j :: p < j <= |steps| ==> NoneFromBefore(tr[j], steps, p, j, id))
    && !AnsweredNew(tr[m + 1], tr[|tr| - 1], i, id, |WritesOf(tr[p], id)|)
  }

  /** A run that goes on from tr0 and steps0 ends in s. */
  ghost predicate RunsOn(tr0: seq<State>, steps0: seq<Step>, s: State, timing: Timing) {
    exists tr, steps :: IsRun(tr, steps, timing) && tr0 <= tr && steps0 <= steps && tr[|tr| - 1] == s
  }

  lemma Then(tr0: seq<State>, steps0: seq<Step>, s: State, step: Step, timing: Timing) returns (s': State)
    requires RunsOn(tr0, steps0, s, timing) && Enabled(s, step, timing)
    ensures s' == Apply(s, step, timing) && RunsOn(tr0, steps0, s', timing)
  {
    s' := Apply(s, step, timing);
    var tr, steps :| IsRun(tr, steps, timing) && tr0 <= tr && steps0 <= steps && tr[|tr| - 1] == s;
    var tr', steps' := ExtendRun(tr, steps, timing, step);
    assert IsRun(tr', steps', timing) && tr0 <= tr' && steps0 <= steps' && tr'[|tr'| - 1] == s';
  }

  predicate HeldInShared(s: State, id: string) {
    && s.tasks == map[] && Hit(s.l2, id, s.now) == Some(BEFORE) && LocalOf(s, 2) == map[]
    && |WritesOf(s, id)| == 1
  }

  lemma OldValueShared(timing: Timing, id: string)
    requires timing.Valid()
    ensures exists s :: Reaches(s, [], timing) && HeldInShared(s, id)
  {
    OldValueRead(timing, id);
    var s :| Reaches(s, [], timing) && Suspended(s, id, [Write(Some(BEFORE), 0.0)]);
    s := GoOn(s, FillLocal(0), [], timing);
    s := GoOn(s, SetShared(0, timing.ttl), [], timing);
    assert HeldInShared(s, id);
  }

  /** Task 0, a read of instance 2, has met the old value; the store holds the new one. */
  predicate HasOldAnswer(s: State, id: string) {
    && 0 in s.tasks && s.tasks[0].instance == 2 && s.tasks[0].id == id
    && s.tasks[0].stage.SharedSaid? && s.tasks[0].stage.raw == Some(BEFORE)
    && |WritesOf(s, id)| == 2 && WritesOf(s, id)[1].record == Some(AFTER)
  }

  lemma ReadMeetsOld(tr: seq<State>, steps: seq<Step>, timing: Timing, id: string)
    requires IsRun(tr, steps, timing) && JustOverwritten(tr, steps, id)
    ensures exists s :: RunsOn(tr, steps, s, timing) && HasOldAnswer(s, id)
  {
    var s := tr[|tr| - 1];
    assert s == Apply(tr[|tr| - 2], steps[|steps| - 1], timing);
    assert RunsOn(tr, steps, s, timing);
    s := Then(tr, steps, s, Get(0, 2, id), timing);
    s := Then(tr, steps, s, SharedReplies(0), timing);
    assert HasOldAnswer(s, id);
  }

  /**
   That no read begun before the write is in flight is not enough: a read begun after the write but
   before the delete can carry the old value of the shared level past the eviction.
   */
  lemma ReadCrossesDelete(timing: Timing, id: string)
    requires timing.Valid()
    ensures exists tr, steps, p, d, m, i :: OldAfterEviction(tr, steps, timing, p, d, m, i, id)
  {
    Overwritten(timing, id);
    var tr, steps :| IsRun(tr, steps, timing) && JustOverwritten(tr, steps, id);
    CrossesFrom(tr, steps, timing, id);
  }

  lemma CrossesFrom(tr: seq<State>, steps: seq<Step>, timing: Timing, id: string)
    requires IsRun(tr, steps, timing) && JustOverwritten(tr, steps, id)
    ensures exists tr', steps', p, d, m, i :: OldAfterEviction(tr', steps', timing, p, d, m, i, id)
  {
    ReadMeetsOld(tr, steps, timing, id);
    var s :| RunsOn(tr, steps, s, timing) && HasOldAnswer(s, id);
    var tr', steps' :| IsRun(tr', steps', timing) && tr <= tr' && steps <= steps' && tr'[|tr'| - 1] == s;
    StillOverwritten(tr, steps, tr', steps', id);
    AnswersPastEviction(tr', steps', timing, |steps| - 1, id);
  }

  lemma StillOverwritten(tr: seq<State>, steps: seq<Step>, tr': seq<State>, steps': seq<Step>, id: string)
    requires JustOverwritten(tr, steps, id) && tr <= tr' && steps <= steps'
    ensures steps'[|steps| - 1] == SaveWrite(id, Some(AFTER)) && HeldInShared(tr'[|steps| - 1], id)
  {
    assert tr'[|steps| - 1] == tr[|steps| - 1] && steps'[|steps| - 1] == steps[|steps| - 1];
  }

  /** The last step wrote the new value while the shared level holds the old one. */
  predicate JustOverwritten(tr: seq<State>, steps: seq<Step>, id: string) {
    && |tr| == |steps| + 1 > 1 && HeldInShared(tr[|steps| - 1], id)
    && steps[|steps| - 1] == SaveWrite(id, Some(AFTER))
  }

  lemma Overwritten(timing: Timing, id: string)
    requires timing.Valid()
    ensures exists tr, steps :: IsRun(tr, steps, timing) && JustOverwritten(tr, steps, id)
  {
    OldValueShared(timing, id);
    var held :| Reaches(held, [], timing) && HeldInShared(held, id);
    var tr, first :| IsRun(tr, first, timing) && tr[|tr| - 1] == held;
    var tr', steps := ExtendRun(tr, first, timing, SaveWrite(id, Some(AFTER)));
    assert JustOverwritten(tr', steps, id);
  }

  /** The delete and the message come next, and then the answer. */
  lemma AnswersPastEviction(tr: seq<State>, steps: seq<Step>, timing: Timing, p: nat, id: string)
    requires IsRun(tr, steps, timing) && p < |steps| && HeldInShared(tr[p], id)
    requires steps[p] == SaveWrite(id, Some(AFTER)) && HasOldAnswer(tr[|tr| - 1], id)
    ensures exists tr', steps', p, d, m, i :: OldAfterEviction(tr', steps', timing, p, d, m, i, id)
  {
    var tr', steps' := ExtendRun(tr, steps, timing, DeleteShared(id));
    tr', steps' := ExtendRun(tr', steps', timing, Message(2, id));
    var tr'', steps'' := ExtendRun(tr', steps', timing, Resume(0));
    OldAnswerIsNotNew(tr'[|tr'| - 1], tr''[|tr''| - 1], id, timing);
    forall j | p < j <= |steps''| ensures NoneFromBefore(tr''[j], steps'', p, j, id) {
      NoneLater(tr'', steps'', timing, p, j, id);
    }
    assert tr''[|steps| + 2] == tr'[|tr'| - 1];
    assert OldAfterEviction(tr'', steps'', timing, p, |steps|, |steps| + 1, 2, id);
  }

  lemma OldAnswerIsNotNew(s: State, s': State, id: string, timing: Timing)
    requires HasOldAnswer(s, id) && s' == Apply(s, Resume(0), timing)
    ensures !AnsweredNew(s, s', 2, id, 1)
  {
    assert !New(s', id, BEFORE, 1);
    assert AnswerFor(s'.returned[|s.returned|], 2, id);
  }
}
