/**
 Sliding-window counting of log events per group key
 (tools/log_monitor/behavioral.py, CountRule), against a rule that looks at the whole history.
 */
module LogMonitor {
  import opened Shared
  import opened Sequences

  type Key = seq<string>

  /** What the regular expressions make of a line: no event, or an event of a group key. */
  datatype Event = Event(key: Option<Key>, at: real)

  datatype Bucket = Bucket(timestamps: seq<real>, lastAlert: Option<real>)

  datatype Alert = Alert(key: Key, count: nat)

  datatype Rule = Rule(threshold: int, window: real, cooldown: real, cap: nat)

  const EMPTY_BUCKET := Bucket([], None)

  function DropOlder(times: seq<real>, cutoff: real): (r: seq<real>)
    ensures |r| <= |times|
  {
    if times != [] && times[0] < cutoff then DropOlder(times[1..], cutoff) else times
  }

  function Pushed(times: seq<real>, now: real, cap: nat): seq<real> {
    var all := times + [now];
    if |all| > cap then all[1..] else all
  }

  function Record(b: Bucket, now: real, rule: Rule): Bucket {
    b.(timestamps := Pushed(DropOlder(b.timestamps, now - rule.window), now, rule.cap))
  }

  predicate CoolingDown(last: Option<real>, now: real, rule: Rule) {
    last.Some? && now - last.value < rule.cooldown
  }

  /** Whether an event at now raises an alert. */
  predicate Fires(b: Bucket, now: real, rule: Rule) {
    |Record(b, now, rule).timestamps| >= rule.threshold && !CoolingDown(b.lastAlert, now, rule)
  }

  function Observed(b: Bucket, now: real, rule: Rule): Bucket {
    if Fires(b, now, rule) then Record(b, now, rule).(lastAlert := Some(now)) else Record(b, now, rule)
  }

  function BucketOf(buckets: map<Key, Bucket>, key: Key): Bucket {
    if key in buckets then buckets[key] else EMPTY_BUCKET
  }

  function After(buckets: map<Key, Bucket>, e: Event, rule: Rule): map<Key, Bucket> {
    if e.key.None? then buckets
    else buckets[e.key.value := Observed(BucketOf(buckets, e.key.value), e.at, rule)]
  }

  function Raised(buckets: map<Key, Bucket>, e: Event, rule: Rule): Option<Alert> {
    if e.key.None? then None
    else
      var b := BucketOf(buckets, e.key.value);
      if Fires(b, e.at, rule) then Some(Alert(e.key.value, |Record(b, e.at, rule).timestamps|)) else None
  }

  class CountRule {
    var buckets: map<Key, Bucket>
    const rule: Rule

    constructor (rule: Rule)
      ensures this.rule == rule && buckets == map[]
    {
      this.rule := rule;
      buckets := map[];
    }

    method Observe(e: Event) returns (alert: Option<Alert>)
      modifies this
      ensures buckets == After(old(buckets), e, rule)
      ensures alert == Raised(old(buckets), e, rule)
    {
      if e.key.None? {
        return None;
      }
      var key, now := e.key.value, e.at;
      if key !in buckets {
        buckets := buckets[key := EMPTY_BUCKET];
      }
      var times := buckets[key].timestamps;
      var cutoff := now - rule.window;
      while times != [] && times[0] < cutoff
        invariant DropOlder(times, cutoff) == DropOlder(buckets[key].timestamps, cutoff)
        decreases |times|
      {
        times := times[1..];
      }
      times := times + [now];
      if |times| > rule.cap {
        times := times[1..];
      }
      buckets := buckets[key := buckets[key].(timestamps := times)];
      if |times| < rule.threshold {
        return None;
      }
      if buckets[key].lastAlert.Some? && now - buckets[key].lastAlert.value < rule.cooldown {
        return None;
      }
      buckets := buckets[key := buckets[key].(lastAlert := Some(now))];
      return Some(Alert(key, |times|));
    }
  }

  // ----- one key: the bucket after a history of event times -----

  function BucketAfter(times: seq<real>, rule: Rule): Bucket {
    if times == [] then EMPTY_BUCKET
    else Observed(BucketAfter(times[..|times| - 1], rule), times[|times| - 1], rule)
  }

  /** Whether the last event of a history raises an alert. */
  predicate FiresLast(times: seq<real>, rule: Rule)
    requires times != []
  {
    Fires(BucketAfter(times[..|times| - 1], rule), times[|times| - 1], rule)
  }

  ghost predicate Ordered(times: seq<real>) {
    forall i, j :: 0 <= i <= j < |times| ==> times[i] <= times[j]
  }

  /** Reference: the earlier events not older than the window, and the event itself. */
  function InWindow(times: seq<real>, rule: Rule): seq<real>
    requires times != []
  {
    var n := |times| - 1;
    NotOlder(times[..n], times[n] - rule.window) + [times[n]]
  }

  function NotOlder(times: seq<real>, cutoff: real): seq<real> {
    if times == [] then []
    else
      var n := |times| - 1;
      NotOlder(times[..n], cutoff) + if times[n] >= cutoff then [times[n]] else []
  }

  /** Reference: with the whole history at hand, alert when the window holds enough events and
      no earlier alert lies inside the cooldown. */
  ghost predicate ShouldFire(times: seq<real>, rule: Rule)
    requires times != []
    decreases |times|, 0
  {
    var n := |times| - 1;
    |InWindow(times, rule)| >= rule.threshold && !RecentAlert(times[..n], times[n], rule)
  }

  ghost predicate RecentAlert(times: seq<real>, now: real, rule: Rule)
    decreases |times|, 2
  {
    exists i :: 0 <= i < |times| && AlertedAt(times, i, rule) && now - times[i] < rule.cooldown
  }

  ghost predicate AlertedAt(times: seq<real>, i: nat, rule: Rule)
    requires i < |times|
    decreases i + 1, 1
  {
    ShouldFire(times[..i + 1], rule)
  }

  lemma {:induction false} NotOlderAppend(a: seq<real>, b: seq<real>, cutoff: real)
    ensures NotOlder(a + b, cutoff) == NotOlder(a, cutoff) + NotOlder(b, cutoff)
  {
    if b == [] {
      assert a + b == a;
    } else {
      assert (a + b)[..|a + b| - 1] == a + b[..|b| - 1];
      NotOlderAppend(a, b[..|b| - 1], cutoff);
    }
  }

  lemma {:induction false} NotOlderAll(a: seq<real>, cutoff: real)
    requires forall i :: 0 <= i < |a| ==> a[i] >= cutoff
    ensures NotOlder(a, cutoff) == a
  {
    if a != [] {
      NotOlderAll(a[..|a| - 1], cutoff);
    }
  }

  /** In time order, popping old events off the front is keeping the young ones. */
  lemma {:induction false} DropIsNotOlder(times: seq<real>, cutoff: real)
    requires Ordered(times)
    ensures DropOlder(times, cutoff) == NotOlder(times, cutoff)
    ensures Ordered(DropOlder(times, cutoff))
  {
    if times != [] {
      if times[0] < cutoff {
        assert times == [times[0]] + times[1..];
        NotOlderAppend([times[0]], times[1..], cutoff);
        DropIsNotOlder(times[1..], cutoff);
      } else {
        NotOlderAll(times, cutoff);
      }
    }
  }

  /** Raising the cutoff loses nothing that a lower cutoff had kept away. */
  lemma {:induction false} NotOlderTwice(times: seq<real>, low: real, high: real)
    requires low <= high
    ensures NotOlder(NotOlder(times, low), high) == NotOlder(times, high)
  {
    if times != [] {
      var n := |times| - 1;
      NotOlderTwice(times[..n], low, high);
      NotOlderAppend(NotOlder(times[..n], low), if times[n] >= low then [times[n]] else [], high);
    }
  }

  lemma {:induction false} DropFromLast(times: seq<real>, cutoff: real, cap: nat)
    requires Ordered(times)
    ensures DropOlder(LastN(times, cap), cutoff) == LastN(DropOlder(times, cutoff), cap)
  {
    if |times| > cap {
      if times[0] < cutoff {
        assert LastN(times, cap) == LastN(times[1..], cap);
        DropFromLast(times[1..], cutoff, cap);
      } else {
        assert LastN(times, cap) == [] || LastN(times, cap)[0] >= cutoff;
      }
    }
  }

  lemma PushedIsLast(times: seq<real>, now: real, cap: nat)
    ensures Pushed(LastN(times, cap), now, cap) == LastN(times + [now], cap)
  {
  }

  /** The next event's window, from this event's window. */
  lemma InWindowGrows(times: seq<real>, now: real, rule: Rule)
    requires times != [] && times[|times| - 1] <= now
    ensures NotOlder(InWindow(times, rule), now - rule.window) + [now] == InWindow(times + [now], rule)
  {
    var n := |times| - 1;
    var low, high := times[n] - rule.window, now - rule.window;
    assert times == times[..n] + [times[n]];
    NotOlderAppend(NotOlder(times[..n], low), [times[n]], high);
    NotOlderTwice(times[..n], low, high);
    NotOlderAppend(times[..n], [times[n]], high);
    assert (times + [now])[..n + 1] == times;
  }

  lemma InWindowOrdered(times: seq<real>, rule: Rule)
    requires times != [] && Ordered(times)
    ensures Ordered(InWindow(times, rule))
  {
    var n := |times| - 1;
    assert times == times[..n] + [times[n]];
    NotOlderOrdered(times[..n], times[n] - rule.window, times[n]);
  }

  lemma PrefixOrdered(a: seq<real>, b: seq<real>)
    requires Ordered(a + b)
    ensures Ordered(a)
  {
    forall i, j | 0 <= i <= j < |a| ensures a[i] <= a[j] {
      assert (a + b)[i] <= (a + b)[j];
    }
  }

  lemma {:induction false} NotOlderOrdered(times: seq<real>, cutoff: real, last: real)
    requires Ordered(times + [last])
    ensures Ordered(NotOlder(times, cutoff) + [last])
  {
    if times != [] {
      var n := |times| - 1;
      assert (times + [last])[n] <= (times + [last])[n + 1];
      assert times == times[..n] + [times[n]];
      PrefixOrdered(times, [last]);
      NotOlderOrdered(times[..n], cutoff, times[n]);
      var kept := NotOlder(times[..n], cutoff);
      SwapLast(kept, times[n], last);
      assert kept + [times[n]] + [last] == kept + [times[n], last];
      assert NotOlder(times, cutoff) == if times[n] >= cutoff then kept + [times[n]] else kept;
    }
  }

  lemma SwapLast(a: seq<real>, low: real, high: real)
    requires Ordered(a + [low]) && low <= high
    ensures Ordered(a + [high]) && Ordered(a + [low, high])
  {
    forall i | 0 <= i < |a| ensures a[i] <= low {
      assert (a + [low])[i] <= (a + [low])[|a|];
    }
    PrefixOrdered(a, [low]);
  }

  lemma DequeStep(times: seq<real>, now: real, b: Bucket, rule: Rule)
    requires times != [] && times[|times| - 1] <= now && Ordered(InWindow(times, rule))
    requires b.timestamps == LastN(InWindow(times, rule), rule.cap)
    ensures Record(b, now, rule).timestamps == LastN(InWindow(times + [now], rule), rule.cap)
  {
    var all := InWindow(times, rule);
    InWindowGrows(times, now, rule);
    DropFromLast(all, now - rule.window, rule.cap);
    DropIsNotOlder(all, now - rule.window);
    PushedIsLast(NotOlder(all, now - rule.window), now, rule.cap);
  }

  /** The deque after k events is the last min(cap, k') of the k' events in the window. */
  lemma {:induction false} DequeIsWindow(times: seq<real>, rule: Rule)
    requires times != [] && Ordered(times)
    ensures BucketAfter(times, rule).timestamps == LastN(InWindow(times, rule), rule.cap)
  {
    var n := |times| - 1;
    if n == 0 {
      assert times == [times[0]];
    } else {
      var front := times[..n];
      assert times == front + [times[n]];
      assert front[n - 1] <= times[n] && Ordered(front);
      DequeIsWindow(front, rule);
      InWindowOrdered(front, rule);
      DequeStep(front, times[n], BucketAfter(front, rule), rule);
    }
  }

  // ----- alerts -----

  /** last is the time of the latest reference alert, if there was one. */
  ghost predicate IsLatestAlert(times: seq<real>, last: Option<real>, rule: Rule) {
    if last.None? then forall i :: 0 <= i < |times| ==> !AlertedAt(times, i, rule)
    else
      exists i :: 0 <= i < |times| && AlertedAt(times, i, rule) && times[i] == last.value
                  && QuietAfter(times, i, rule)
  }

  ghost predicate QuietAfter(times: seq<real>, i: nat, rule: Rule) {
    forall j :: i < j < |times| ==> !AlertedAt(times, j, rule)
  }

  lemma AlertsOfPrefix(times: seq<real>, n: nat, rule: Rule)
    requires n <= |times|
    ensures forall i :: 0 <= i < n ==> (AlertedAt(times[..n], i, rule) <==> AlertedAt(times, i, rule))
  {
    forall i | 0 <= i < n ensures AlertedAt(times[..n], i, rule) <==> AlertedAt(times, i, rule) {
      assert times[..n][..i + 1] == times[..i + 1];
    }
  }

  /** In time order the latest alert decides the cooldown. */
  lemma LatestDecides(times: seq<real>, now: real, last: Option<real>, rule: Rule)
    requires Ordered(times) && IsLatestAlert(times, last, rule)
    ensures RecentAlert(times, now, rule) <==> CoolingDown(last, now, rule)
  {
  }

  lemma LatestAlertStep(times: seq<real>, last: Option<real>, rule: Rule)
    requires times != [] && IsLatestAlert(times[..|times| - 1], last, rule)
    ensures IsLatestAlert(times, if ShouldFire(times, rule) then Some(times[|times| - 1]) else last, rule)
  {
    var n := |times| - 1;
    AlertsOfPrefix(times, n, rule);
    assert times[..n + 1] == times;
    if ShouldFire(times, rule) {
      assert AlertedAt(times, n, rule) && QuietAfter(times, n, rule);
    } else if last.Some? {
      var i :| 0 <= i < n && AlertedAt(times[..n], i, rule) && times[..n][i] == last.value
               && QuietAfter(times[..n], i, rule);
      assert QuietAfter(times, i, rule);
    }
  }

  lemma {:induction false} TracksAlerts(times: seq<real>, rule: Rule)
    requires Ordered(times) && rule.threshold <= rule.cap
    ensures times != [] ==> (FiresLast(times, rule) <==> ShouldFire(times, rule))
    ensures IsLatestAlert(times, BucketAfter(times, rule).lastAlert, rule)
  {
    if times != [] {
      var n := |times| - 1;
      TracksAlerts(times[..n], rule);
      LatestDecides(times[..n], times[n], BucketAfter(times[..n], rule).lastAlert, rule);
      DequeIsWindow(times, rule);
      LatestAlertStep(times, BucketAfter(times[..n], rule).lastAlert, rule);
    }
  }

  /**
   Refinement: with a threshold the cap can hold, the capped rule alerts exactly when the
   full-history rule does, and it reports min(cap, number of events in the window).
   */
  lemma AlertsExactly(times: seq<real>, rule: Rule)
    requires times != [] && Ordered(times) && rule.threshold <= rule.cap
    ensures FiresLast(times, rule) <==> ShouldFire(times, rule)
    ensures var count := |InWindow(times, rule)|;
            |BucketAfter(times, rule).timestamps| == if count <= rule.cap then count else rule.cap
  {
    TracksAlerts(times, rule);
    DequeIsWindow(times, rule);
  }

  function Burst(n: nat): seq<real> {
    seq(n, i => 0.0)
  }

  lemma {:induction false} BurstIsInWindow(n: nat, rule: Rule)
    requires rule.window >= 0.0
    ensures NotOlder(Burst(n), -rule.window) == Burst(n)
  {
    NotOlderAll(Burst(n), -rule.window);
  }

  lemma {:induction false} NeverFires(times: seq<real>, rule: Rule)
    requires rule.threshold > rule.cap
    ensures |BucketAfter(times, rule).timestamps| <= rule.cap && BucketAfter(times, rule).lastAlert.None?
    ensures times != [] ==> !FiresLast(times, rule)
  {
    if times != [] {
      NeverFires(times[..|times| - 1], rule);
    }
  }

  /** The capped rule is the full-history rule iff the cap can hold the threshold. */
  lemma ExactIffCapSuffices(rule: Rule)
    requires rule.window >= 0.0
    ensures (forall times: seq<real> :: times != [] && Ordered(times) ==>
                                          (FiresLast(times, rule) <==> ShouldFire(times, rule)))
            <==> rule.threshold <= rule.cap
  {
    if rule.threshold <= rule.cap {
      forall times: seq<real> | times != [] && Ordered(times)
        ensures FiresLast(times, rule) <==> ShouldFire(times, rule)
      {
        AlertsExactly(times, rule);
      }
    } else {
      MissedBurst(rule);
    }
  }

  /** A first burst of threshold events at one instant is missed when the cap is too small. */
  lemma MissedBurst(rule: Rule)
    requires rule.window >= 0.0 && rule.threshold > rule.cap
    ensures exists times: seq<real> :: times != [] && Ordered(times)
                                       && !FiresLast(times, rule) && ShouldFire(times, rule)
  {
    var times := Burst(rule.threshold);
    NeverFires(times, rule);
    BurstShouldFire(rule.threshold - 1, rule);
    assert Ordered(times);
  }

  lemma BurstShouldFire(n: nat, rule: Rule)
    requires rule.window >= 0.0 && n + 1 == rule.threshold
    ensures ShouldFire(Burst(n + 1), rule)
  {
    assert Burst(n + 1)[..n] == Burst(n);
    BurstIsInWindow(n, rule);
    FirstAlert(n, rule);
  }

  /** No shorter burst alerts, so there is no earlier alert to cool down from. */
  lemma FirstAlert(n: nat, rule: Rule)
    requires n < rule.threshold
    ensures !RecentAlert(Burst(n), 0.0, rule)
  {
    forall i | 0 <= i < n ensures !AlertedAt(Burst(n), i, rule) {
      assert Burst(n)[..i + 1] == Burst(i + 1);
      ShortWindow(Burst(i + 1), rule);
    }
  }

  lemma ShortWindow(times: seq<real>, rule: Rule)
    requires times != []
    ensures |InWindow(times, rule)| <= |times|
  {
    NotOlderLength(times[..|times| - 1], times[|times| - 1] - rule.window);
  }

  lemma {:induction false} NotOlderLength(times: seq<real>, cutoff: real)
    ensures |NotOlder(times, cutoff)| <= |times|
  {
    if times != [] {
      NotOlderLength(times[..|times| - 1], cutoff);
    }
  }

  // ----- many keys in one stream -----

  function BucketsAfter(events: seq<Event>, rule: Rule): map<Key, Bucket> {
    if events == [] then map[]
    else After(BucketsAfter(events[..|events| - 1], rule), events[|events| - 1], rule)
  }

  /** The times of one key's own events. */
  function TimesOf(events: seq<Event>, key: Key): seq<real> {
    if events == [] then []
    else
      var n := |events| - 1;
      TimesOf(events[..n], key) + if events[n].key == Some(key) then [events[n].at] else []
  }

  /** Other keys' events, and lines that are no event, never reach a key's bucket. */
  lemma {:induction false} KeysAreIndependent(events: seq<Event>, rule: Rule, key: Key)
    ensures BucketOf(BucketsAfter(events, rule), key) == BucketAfter(TimesOf(events, key), rule)
  {
    if events != [] {
      var n := |events| - 1;
      KeysAreIndependent(events[..n], rule, key);
      var times := TimesOf(events[..n], key);
      if events[n].key == Some(key) {
        assert (times + [events[n].at])[..|times|] == times;
      } else {
        assert times + [] == times;
      }
    }
  }

  /**
   Over a whole mixed log in time order, a line raises an alert iff it is an event whose key,
   on the full history of that key's own events, should alert now; and the alert names that key and
   min(cap, number of its events in the window).
   */
  lemma MixedStreamAlerts(events: seq<Event>, e: Event, rule: Rule)
    requires rule.threshold <= rule.cap
    requires e.key.Some? ==> Ordered(TimesOf(events, e.key.value) + [e.at])
    ensures Raised(BucketsAfter(events, rule), e, rule).Some? <==>
              e.key.Some? && ShouldFire(TimesOf(events, e.key.value) + [e.at], rule)
    ensures Raised(BucketsAfter(events, rule), e, rule).Some? ==>
              var count := |InWindow(TimesOf(events, e.key.value) + [e.at], rule)|;
              Raised(BucketsAfter(events, rule), e, rule).value ==
              Alert(e.key.value, if count <= rule.cap then count else rule.cap)
  {
    if e.key.Some? {
      KeysAreIndependent(events, rule, e.key.value);
      NextAlert(TimesOf(events, e.key.value), e.at, rule);
    }
  }

  lemma NextAlert(times: seq<real>, now: real, rule: Rule)
    requires rule.threshold <= rule.cap && Ordered(times + [now])
    ensures Fires(BucketAfter(times, rule), now, rule) <==> ShouldFire(times + [now], rule)
    ensures var count := |InWindow(times + [now], rule)|;
            |Record(BucketAfter(times, rule), now, rule).timestamps| == if count <= rule.cap then count else rule.cap
  {
    assert (times + [now])[..|times|] == times;
    AlertsExactly(times + [now], rule);
  }

  /** The latest alert is not before any earlier one, even if the clock goes backwards. */
  lemma {:induction false} LatestAlertCovers(times: seq<real>, i: nat, rule: Rule)
    requires rule.cooldown >= 0.0 && i < |times| && FiresLast(times[..i + 1], rule)
    ensures BucketAfter(times, rule).lastAlert.Some? && BucketAfter(times, rule).lastAlert.value >= times[i]
  {
    var n := |times| - 1;
    if i < n {
      assert times[..n][..i + 1] == times[..i + 1];
      LatestAlertCovers(times[..n], i, rule);
    } else {
      assert times[..i + 1] == times;
    }
  }

  /** Two alerts of one key are at least the cooldown apart, for any clock, threshold and cap. */
  lemma AlertsAreSpaced(times: seq<real>, i: nat, j: nat, rule: Rule)
    requires rule.cooldown >= 0.0 && i < j < |times|
    requires FiresLast(times[..i + 1], rule) && FiresLast(times[..j + 1], rule)
    ensures times[j] - times[i] >= rule.cooldown
  {
    assert times[..j][..i + 1] == times[..i + 1] && times[..j + 1][..j] == times[..j];
    LatestAlertCovers(times[..j], i, rule);
  }
}
