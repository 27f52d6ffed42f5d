/**
 The exact worst-case staleness of the two-level cache, and what a refresh does there.

 The TTL alone is not the staleness bound that cache.py:19 and cache_redis.py:6-7 promise:
 with every invalidation delivered at once, a record is returned for almost twice the TTL plus
 both gaps after it was superseded.
 */
module TwoLevelWitness {
  import opened Shared
  import opened CmsTypes
  import opened TwoLevelCache

  lemma ExtendRun(tr: seq<State>, steps: seq<Step>, timing: Timing, step: Step)
      returns (tr': seq<State>, steps': seq<Step>)
    requires Leads(tr, steps, timing) && Enabled(tr[|tr| - 1], step, timing)
    ensures tr' == tr + [Apply(tr[|tr| - 1], step, timing)] && steps' == steps + [step]
    ensures Leads(tr', steps', timing)
  {
    tr', steps' := tr + [Apply(tr[|tr| - 1], step, timing)], steps + [step];
    forall i | 0 <= i < |steps'|
      ensures Enabled(tr'[i], steps'[i], timing) && tr'[i + 1] == Apply(tr'[i], steps'[i], timing)
    {
      if i < |steps| {
        assert tr'[i] == tr[i] && tr'[i + 1] == tr[i + 1] && steps'[i] == steps[i];
      }
    }
  }

  /** Some run that begins with these steps ends in s. */
  ghost predicate Reaches(s: State, before: seq<Step>, timing: Timing) {
    exists tr, steps :: IsRun(tr, steps, timing) && before <= steps && tr[|tr| - 1] == s
  }

  lemma StartReached(timing: Timing)
    ensures Reaches(START, [], timing)
  {
    assert IsRun([START], [], timing);
    assert [START][|[START]| - 1] == START;
  }

  lemma GoOn(s: State, step: Step, before: seq<Step>, timing: Timing) returns (s': State)
    requires Reaches(s, before, timing) && Enabled(s, step, timing)
    ensures s' == Apply(s, step, timing) && Reaches(s', before, timing)
  {
    s' := Apply(s, step, timing);
    var tr, steps :| IsRun(tr, steps, timing) && before <= steps && tr[|tr| - 1] == s;
    var tr', steps' := ExtendRun(tr, steps, timing, step);
    assert IsRun(tr', steps', timing) && before <= steps' && tr'[|tr'| - 1] == s';
  }

  const KEY := ConfigKey(Setting, "global_variables", None, None)
  const BEFORE := ConfigRecord(KEY, 1, map["x" := "1"])
  const AFTER := ConfigRecord(KEY, 2, map["x" := "2"])

  const TWO_WRITES := [Write(Some(BEFORE), 0.0), Write(Some(AFTER), 0.0)]

  predicate Suspended(s: State, id: string, writes: seq<Write>) {
    && s.now == 0.0 && WritesOf(s, id) == writes && id !in s.l2 && LocalOf(s, 2) == map[]
    && s.tasks == map[0 := Task(0, id, StoreSaid(BEFORE, 0.0))]
  }

  /** Instance 0 misses both levels and reads the old value from the store. */
  lemma OldValueRead(timing: Timing, id: string)
    requires timing.Valid()
    ensures exists s :: Reaches(s, [], timing) && Suspended(s, id, [Write(Some(BEFORE), 0.0)])
  {
    StartReached(timing);
    var s := GoOn(START, SaveWrite(id, Some(BEFORE)), [], timing);
    s := GoOn(s, Get(0, 0, id), [], timing);
    s := GoOn(s, SharedReplies(0), [], timing);
    s := GoOn(s, Resume(0), [], timing);
    s := GoOn(s, StoreReplies(0), [], timing);
    assert Suspended(s, id, [Write(Some(BEFORE), 0.0)]);
  }

  /** The second write, by instance 1, and its eviction at once everywhere. */
  function Overwrite(id: string): seq<Step> {
    [SaveWrite(id, Some(AFTER)), Message(1, id), DeleteShared(id), Message(0, id), Message(2, id)]
  }

  /** The steps end with that write and the delivery of its eviction to all three instances. */
  ghost predicate Delivered(before: seq<Step>, id: string) {
    exists first :: before == first + Overwrite(id)
  }

  /** The key is then overwritten and evicted everywhere, before the read goes on. */
  lemma EvictedTooEarly(timing: Timing, id: string) returns (before: seq<Step>)
    requires timing.Valid()
    ensures Delivered(before, id)
    ensures exists s :: Reaches(s, before, timing) && Suspended(s, id, TWO_WRITES)
  {
    OldValueRead(timing, id);
    var s :| Reaches(s, [], timing) && Suspended(s, id, [Write(Some(BEFORE), 0.0)]);
    var tr, first :| IsRun(tr, first, timing) && tr[|tr| - 1] == s;
    EvictAll(tr, first, timing, id);
    before := first + Overwrite(id);
    var tr' :| IsRun(tr', before, timing) && Suspended(tr'[|tr'| - 1], id, TWO_WRITES);
    assert Reaches(tr'[|tr'| - 1], before, timing);
  }

  lemma EvictAll(tr: seq<State>, first: seq<Step>, timing: Timing, id: string)
    requires IsRun(tr, first, timing) && Suspended(tr[|tr| - 1], id, [Write(Some(BEFORE), 0.0)])
    ensures exists tr' :: IsRun(tr', first + Overwrite(id), timing) && Suspended(tr'[|tr'| - 1], id, TWO_WRITES)
  {
    var tr', steps := ExtendRun(tr, first, timing, SaveWrite(id, Some(AFTER)));
    tr', steps := ExtendRun(tr', steps, timing, Message(1, id));
    tr', steps := ExtendRun(tr', steps, timing, DeleteShared(id));
    tr', steps := ExtendRun(tr', steps, timing, Message(0, id));
    tr', steps := ExtendRun(tr', steps, timing, Message(2, id));
    assert steps == first + Overwrite(id) && Suspended(tr'[|tr'| - 1], id, TWO_WRITES);
  }

  /** The shared level holds the superseded value; nothing is in flight or known to instance 2. */
  predicate SharedHoldsOld(s: State, id: string, timing: Timing) {
    && s.now == timing.storeGap && s.tasks == map[] && LocalOf(s, 2) == map[] && WritesOf(s, id) == TWO_WRITES
    && id in s.l2 && s.l2[id] == Entry(BEFORE, timing.storeGap + timing.ttl)
  }

  /** Instance 0, held up as long as it may be, fills the shared level with that value. */
  lemma SharedLevelKeepsOldValue(timing: Timing, id: string) returns (before: seq<Step>)
    requires timing.Valid()
    ensures Delivered(before, id)
    ensures exists s :: Reaches(s, before, timing) && SharedHoldsOld(s, id, timing)
  {
    before := EvictedTooEarly(timing, id);
    var s :| Reaches(s, before, timing) && Suspended(s, id, TWO_WRITES);
    s := GoOn(s, Advance(timing.storeGap), before, timing);
    s := GoOn(s, FillLocal(0), before, timing);
    s := GoOn(s, SetShared(0, timing.ttl), before, timing);
    assert SharedHoldsOld(s, id, timing);
  }

  /** Instance 2 caches the superseded value, with its whole lifetime ahead. */
  predicate LocalHoldsOld(s: State, id: string, now: real, timing: Timing) {
    && s.now == now && s.tasks == map[] && WritesOf(s, id) == TWO_WRITES
    && 2 in s.l1 && id in s.l1[2] && s.l1[2][id] == Entry(BEFORE, now + timing.ttl)
  }

  /** It asks the shared level just before that entry expires and fills its own cache as late
      as it may. */
  lemma ReadFromShared(timing: Timing, first: real, id: string) returns (before: seq<Step>)
    requires timing.Valid() && 0.0 <= first < timing.ttl
    ensures Delivered(before, id)
    ensures exists s :: Reaches(s, before, timing)
                        && LocalHoldsOld(s, id, timing.storeGap + first + timing.sharedGap, timing)
  {
    before := SharedLevelKeepsOldValue(timing, id);
    var s :| Reaches(s, before, timing) && SharedHoldsOld(s, id, timing);
    s := GoOn(s, Advance(first), before, timing);
    s := GoOn(s, Get(0, 2, id), before, timing);
    s := GoOn(s, SharedReplies(0), before, timing);
    s := GoOn(s, Advance(timing.sharedGap), before, timing);
    s := GoOn(s, Resume(0), before, timing);
    assert LocalHoldsOld(s, id, timing.storeGap + first + timing.sharedGap, timing);
  }

  /** The last answer of s, given at now, is the value that was superseded at time 0. */
  ghost predicate AnswersOld(s: State, now: real) {
    && s.now == now && s.returned != [] && s.returned[|s.returned| - 1] == Return(2, Identity(KEY), BEFORE, s.now)
    && forall x :: x > 0.0 ==> !WasCurrent(WritesOf(s, Identity(KEY)), BEFORE, x)
  }

  /** The eviction of the second write is delivered to all three instances before anything else. */
  ghost predicate DeliveredEarly(steps: seq<Step>, id: string) {
    exists before :: before <= steps && Delivered(before, id)
  }

  /** Every staleness below twice the TTL plus the gaps is reached, with every eviction delivered. */
  lemma StaleBeyondTtl(timing: Timing, first: real, second: real)
    requires timing.Valid() && 0.0 <= first < timing.ttl && 0.0 <= second < timing.ttl
    ensures exists tr, steps :: IsRun(tr, steps, timing) && DeliveredEarly(steps, Identity(KEY))
                                && AnswersOld(tr[|tr| - 1], timing.storeGap + first + timing.sharedGap + second)
  {
    var id, now := Identity(KEY), timing.storeGap + first + timing.sharedGap;
    var before := ReadFromShared(timing, first, id);
    var s :| Reaches(s, before, timing) && LocalHoldsOld(s, id, now, timing);
    s := GoOn(s, Advance(second), before, timing);
    s := GoOn(s, Get(0, 2, id), before, timing);
    assert AnswersOld(s, now + second);
    var tr, steps :| IsRun(tr, steps, timing) && before <= steps && tr[|tr| - 1] == s;
    assert DeliveredEarly(steps, id);
  }

  // ----- the bound is exact -----

  /** The k-th answer was the store's current value less than limit before it was given. */
  ghost predicate FreshWithin(s: State, k: nat, limit: real)
    requires k < |s.returned|
  {
    CurrentAfter(s, s.returned[k].id, s.returned[k].record, s.returned[k].at - limit)
  }

  /** limit bounds the staleness of every answer of every run. */
  ghost predicate IsLimit(limit: real, timing: Timing) {
    forall tr: seq<State>, steps: seq<Step>, i: nat, k: nat ::
      IsRun(tr, steps, timing) && i < |tr| && k < |tr[i].returned| ==> FreshWithin(tr[i], k, limit)
  }

  lemma FresherIsFresh(s: State, k: nat, limit: real, weaker: real)
    requires k < |s.returned| && FreshWithin(s, k, limit) && limit <= weaker
    ensures FreshWithin(s, k, weaker)
  {
    var r := s.returned[k];
    var x :| r.at - limit < x <= s.now && WasCurrent(WritesOf(s, r.id), r.record, x);
  }

  /** A smaller limit is exceeded by some run. */
  lemma SmallerIsNoLimit(limit: real, timing: Timing)
    requires timing.Valid() && limit < timing.Bound()
    ensures !IsLimit(limit, timing)
  {
    var gaps := timing.storeGap + timing.sharedGap;
    var part := if limit <= gaps then 0.0 else (limit - gaps) / 2.0;
    StaleBeyondTtl(timing, part, part);
    var tr: seq<State>, steps: seq<Step> :|
      IsRun(tr, steps, timing) && DeliveredEarly(steps, Identity(KEY))
      && AnswersOld(tr[|tr| - 1], timing.storeGap + part + timing.sharedGap + part);
    var s := tr[|tr| - 1];
    assert s.now >= limit;
    assert !FreshWithin(s, |s.returned| - 1, limit);
  }

  /** The exact bound: a limit holds of every answer of every run iff it is at least twice the
      TTL plus the two gaps. */
  lemma BoundIsExact(limit: real, timing: Timing)
    requires timing.Valid()
    ensures IsLimit(limit, timing) <==> limit >= timing.Bound()
  {
    if limit >= timing.Bound() {
      forall tr: seq<State>, steps: seq<Step>, i: nat, k: nat |
        IsRun(tr, steps, timing) && i < |tr| && k < |tr[i].returned|
        ensures FreshWithin(tr[i], k, limit)
      {
        BoundedStaleness(tr, steps, timing, i, k);
        FresherIsFresh(tr[i], k, timing.Bound(), limit);
      }
    } else {
      SmallerIsNoLimit(limit, timing);
    }
  }

  // ----- refresh -----

  /**
   A refresh empties the first level of every instance and no more, so the read after it can
   still answer with a superseded value, although service.py:208 says it reloads from the store.
   */
  lemma RefreshServesStale(timing: Timing)
    requires timing.Valid()
    ensures exists tr, before :: IsRun(tr, before + RefreshAndRead(), timing) && ServesOld(tr[|tr| - 1])
  {
    RefreshedBoth(timing);
    var tr, before :| IsRun(tr, before + Refresh(), timing) && Unknown(tr[|tr| - 1], timing);
    ReadAgain(tr, before + Refresh(), timing);
    assert before + RefreshAndRead() == before + Refresh() + ReadSteps();
  }

  lemma ReadAgain(tr: seq<State>, steps: seq<Step>, timing: Timing)
    requires IsRun(tr, steps, timing) && Unknown(tr[|tr| - 1], timing)
    ensures exists tr' :: IsRun(tr', steps + ReadSteps(), timing) && ServesOld(tr'[|tr'| - 1])
  {
    var tr', steps' := ExtendRun(tr, steps, timing, Get(0, 2, Identity(KEY)));
    tr', steps' := ExtendRun(tr', steps', timing, SharedReplies(0));
    tr', steps' := ExtendRun(tr', steps', timing, Resume(0));
    assert steps' == steps + ReadSteps() && ServesOld(tr'[|tr'| - 1]);
  }

  /** The refresh reaches instances 0 and 2. */
  function Refresh(): seq<Step> {
    [Message(0, CLEAR), Message(2, CLEAR)]
  }

  /** Instance 2 reads. */
  function ReadSteps(): seq<Step> {
    [Get(0, 2, Identity(KEY)), SharedReplies(0), Resume(0)]
  }

  function RefreshAndRead(): seq<Step> {
    Refresh() + ReadSteps()
  }

  /** The last answer is the superseded value although the store holds the newer one. */
  predicate ServesOld(s: State) {
    && s.returned != [] && s.returned[|s.returned| - 1] == Return(2, Identity(KEY), BEFORE, s.now)
    && Current(WritesOf(s, Identity(KEY))) == Some(AFTER)
  }

  /** The shared level holds the superseded value, and instance 2 holds nothing. */
  predicate Unknown(s: State, timing: Timing) {
    && s.tasks == map[] && LocalOf(s, 2) == map[] && WritesOf(s, Identity(KEY)) == TWO_WRITES
    && Hit(s.l2, Identity(KEY), s.now) == Some(BEFORE)
  }

  lemma RefreshedBoth(timing: Timing)
    requires timing.Valid()
    ensures exists tr, before :: IsRun(tr, before + Refresh(), timing) && Unknown(tr[|tr| - 1], timing)
  {
    var delivered := SharedLevelKeepsOldValue(timing, Identity(KEY));
    var s :| Reaches(s, delivered, timing) && SharedHoldsOld(s, Identity(KEY), timing);
    var tr, before :| IsRun(tr, before, timing) && tr[|tr| - 1] == s;
    var tr', steps := ExtendRun(tr, before, timing, Message(0, CLEAR));
    tr', steps := ExtendRun(tr', steps, timing, Message(2, CLEAR));
    assert steps == before + Refresh() && Unknown(tr'[|tr'| - 1], timing);
  }

  /** Nothing of the instance is cached in the process, as right after a refresh. */
  predicate Refreshed(s: State, t: nat, instance: nat) {
    LocalOf(s, instance) == map[] && t !in s.tasks
  }

  /** An uninterrupted read, up to the answer of the shared level or the miss there. */
  function AskedShared(s: State, t: nat, instance: nat, id: string, timing: Timing): State
    requires Refreshed(s, t, instance)
  {
    Apply(Apply(Apply(s, Get(t, instance, id), timing), SharedReplies(t), timing), Resume(t), timing)
  }

  /** The rest of it, when the shared level had nothing. */
  function AskedStore(s: State, t: nat, timing: Timing): State
    requires t in s.tasks && s.tasks[t].stage.AskStore?
  {
    var replied := Apply(s, StoreReplies(t), timing);
    if t !in replied.tasks then replied
    else
      var filled := Apply(replied, FillLocal(t), timing);
      Apply(filled, SetShared(t, timing.ttl), timing)
  }

  /** After a refresh a read goes on to the store iff the shared level holds nothing unexpired. */
  lemma RefreshedReadGoesToStore(s: State, t: nat, instance: nat, id: string, timing: Timing)
    requires Refreshed(s, t, instance)
    ensures var asked := AskedShared(s, t, instance, id, timing);
            (t in asked.tasks && asked.tasks[t].stage.AskStore?) <==> Hit(s.l2, id, s.now).None?
  {
  }

  /** The whole uninterrupted read. */
  function WholeRead(s: State, t: nat, instance: nat, id: string, timing: Timing): State
    requires Refreshed(s, t, instance)
  {
    var asked := AskedShared(s, t, instance, id, timing);
    if t in asked.tasks && asked.tasks[t].stage.AskStore? then AskedStore(asked, t, timing) else asked
  }

  /** What a read that led from s to s' answered. */
  function Answered(s: State, s': State): Option<ConfigRecord> {
    if |s'.returned| <= |s.returned| then None else Some(s'.returned[|s'.returned| - 1].record)
  }

  /** Its answer is the store's current value iff the shared level holds nothing or that value. */
  lemma RefreshedReadIsCurrentIff(s: State, t: nat, instance: nat, id: string, timing: Timing)
    requires Refreshed(s, t, instance)
    ensures var hit, current := Hit(s.l2, id, s.now), Current(WritesOf(s, id));
            Answered(s, WholeRead(s, t, instance, id, timing)) == current <==> hit.None? || hit == current
  {
    var asked := AskedShared(s, t, instance, id, timing);
    RefreshedReadGoesToStore(s, t, instance, id, timing);
    if Hit(s.l2, id, s.now).None? {
      StoreAnswers(asked, t, timing);
    }
  }

  lemma StoreAnswers(s: State, t: nat, timing: Timing)
    requires t in s.tasks && s.tasks[t].stage.AskStore?
    ensures Answered(s, AskedStore(s, t, timing)) == Current(WritesOf(s, s.tasks[t].id))
  {
  }

  /** Every answer of an uninterrupted read stays with the instance for the TTL, and one from the
      store stays in the shared level for it too. */
  lemma ReadIsCached(s: State, t: nat, instance: nat, id: string, timing: Timing, later: real)
    requires timing.Valid() && Refreshed(s, t, instance)
    ensures var s', hit := WholeRead(s, t, instance, id, timing), Hit(s.l2, id, s.now);
            var answer := if hit.Some? then hit else Current(WritesOf(s, id));
            && Answered(s, s') == answer && t !in s'.tasks
            && (s.now <= later < s.now + timing.ttl ==> Hit(LocalOf(s', instance), id, later) == answer)
            && (hit.None? && s.now <= later < s.now + timing.ttl ==> Hit(s'.l2, id, later) == answer)
  {
  }
}
