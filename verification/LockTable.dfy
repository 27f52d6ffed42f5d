/**
 The capped, least-recently-touched table of per-identity locks
 (app/services/workflow/dispatcher.py, _identity_lock).

 A lock object is named by the index of the touch that created it, so two touches
 got the same lock object exactly when they got the same name.
 */
module LockTable {
  import opened Shared
  import opened Sequences

  datatype Key = Key(channel: Channel, identity: string)

  /** The OrderedDict: its insertion order, oldest first, and its contents. */
  datatype Table = Table(order: seq<Key>, locks: map<Key, nat>, touches: nat)

  const EMPTY_TABLE := Table([], map[], 0)

  function Trim(t: Table, max: nat): Table
    decreases |t.order|
  {
    if |t.order| <= max then t
    else Trim(Table(t.order[1..], t.locks - {t.order[0]}, t.touches), max)
  }

  function Touch(t: Table, key: Key, max: nat): Table {
    if key in t.locks then
      Table(Without(t.order, key) + [key], t.locks, t.touches + 1)
    else
      Trim(Table(t.order + [key], t.locks[key := t.touches], t.touches + 1), max)
  }

  /** The lock that a touch of key hands out. */
  function LockGiven(t: Table, key: Key): nat {
    if key in t.locks then t.locks[key] else t.touches
  }

  class IdentityLocks {
    var order: seq<Key>
    var locks: map<Key, nat>
    var touches: nat
    const max: nat

    ghost function View(): Table
      reads this
    {
      Table(order, locks, touches)
    }

    constructor (max: nat)
      ensures this.max == max && View() == EMPTY_TABLE
    {
      this.max := max;
      order, locks, touches := [], map[], 0;
    }

    method IdentityLock(key: Key) returns (lock: nat)
      modifies this
      ensures lock == LockGiven(old(View()), key)
      ensures View() == Touch(old(View()), key, max)
    {
      if key !in locks {
        lock := touches;
        locks := locks[key := lock];
        order := order + [key];
        touches := touches + 1;
        while |order| > max
          invariant Trim(View(), max) == Touch(old(View()), key, max)
          decreases |order|
        {
          locks := locks - {order[0]};
          order := order[1..];
        }
      } else {
        lock := locks[key];
        order := Without(order, key) + [key];
        touches := touches + 1;
      }
    }
  }

  // ----- what a whole history of touches leaves behind -----

  function Run(h: seq<Key>, max: nat): Table {
    if h == [] then EMPTY_TABLE
    else Touch(Run(h[..|h| - 1], max), h[|h| - 1], max)
  }

  /** The lock handed out by touch i of the history. */
  function LockAt(h: seq<Key>, i: nat, max: nat): nat
    requires i < |h|
  {
    LockGiven(Run(h[..i], max), h[i])
  }

  /** Reference: every key ever touched, ordered by its last touch, most recent last. */
  function Recent(h: seq<Key>): seq<Key> {
    if h == [] then []
    else Without(Recent(h[..|h| - 1]), h[|h| - 1]) + [h[|h| - 1]]
  }

  /** The distinct keys other than h[i] touched after touch i. */
  function OthersSince(h: seq<Key>, i: nat): set<Key>
    requires i < |h|
  {
    ToSet(h[i + 1..]) - {h[i]}
  }

  lemma {:induction false} RecentMembers(h: seq<Key>)
    ensures Distinct(Recent(h))
    ensures forall k :: k in Recent(h) <==> k in h
  {
    if h != [] {
      var n := |h| - 1;
      RecentMembers(h[..n]);
      WithoutMembers(Recent(h[..n]), h[n]);
      WithoutDistinct(Recent(h[..n]), h[n]);
      assert h == h[..n] + [h[n]];
    }
  }

  lemma TrimOnce(t: Table, max: nat)
    requires |t.order| <= max + 1
    ensures Trim(t, max) == if |t.order| <= max then t
                            else Table(t.order[1..], t.locks - {t.order[0]}, t.touches)
  {
  }

  /** The table always holds exactly the max most recently touched distinct keys. */
  lemma {:induction false} TableIsMostRecent(h: seq<Key>, max: nat)
    ensures Run(h, max).order == LastN(Recent(h), max)
    ensures Run(h, max).locks.Keys == ToSet(LastN(Recent(h), max))
    ensures Run(h, max).touches == |h|
  {
    if h != [] {
      var n := |h| - 1;
      var k, r := h[n], Recent(h[..n]);
      TableIsMostRecent(h[..n], max);
      RecentMembers(h[..n]);
      if k in LastN(r, max) {
        RecencyHit(r, k, max);
      } else {
        RecencyMiss(r, k, max);
      }
      TouchKeepsOrder(Run(h[..n], max), k, max);
    }
  }

  lemma TouchKeepsOrder(t: Table, k: Key, max: nat)
    requires Distinct(t.order) && t.locks.Keys == ToSet(t.order) && |t.order| <= max
    ensures Touch(t, k, max).touches == t.touches + 1
    ensures Touch(t, k, max).order ==
            if k in t.order then Without(t.order, k) + [k] else LastN(t.order + [k], max)
    ensures Touch(t, k, max).locks.Keys == ToSet(Touch(t, k, max).order)
  {
    if k in t.order {
      WithoutMembers(t.order, k);
    } else {
      NewKeyKeepsOrder(t, k, max);
    }
  }

  lemma NewKeyKeepsOrder(t: Table, k: Key, max: nat)
    requires Distinct(t.order) && t.locks.Keys == ToSet(t.order) && |t.order| <= max && k !in t.order
    ensures Touch(t, k, max).touches == t.touches + 1
    ensures Touch(t, k, max).order == LastN(t.order + [k], max)
    ensures Touch(t, k, max).locks.Keys == ToSet(Touch(t, k, max).order)
  {
    var grown, locks := t.order + [k], t.locks[k := t.touches];
    TrimOnce(Table(grown, locks, t.touches + 1), max);
    ToSetAppend(t.order, k);
    assert locks.Keys == ToSet(grown);
    DistinctAppend(t.order, k);
    TailToSet(grown);
  }

  /** The keys behind a key in recency order are exactly those touched after its last touch. */
  lemma {:induction false} RecencyTail(h: seq<Key>, i: nat) returns (a: nat)
    requires i < |h| && h[i] !in h[i + 1..]
    ensures a < |Recent(h)| && Recent(h)[a] == h[i]
    ensures ToSet(Recent(h)[a + 1..]) == ToSet(h[i + 1..])
  {
    var n := |h| - 1;
    var k, r := h[n], Recent(h[..n]);
    if i == n {
      a := |Without(r, k)|;
      assert Recent(h)[a + 1..] == h[i + 1..] == [];
    } else {
      assert h[i + 1..] == h[..n][i + 1..] + [k];
      var b := RecencyTail(h[..n], i);
      WithoutAround(r, b, k);
      a := |Without(r[..b], k)|;
      assert Recent(h)[a + 1..] == Without(r[b + 1..], k) + [k];
      WithoutToSet(r[b + 1..], k);
      ToSetAppend(Without(r[b + 1..], k), k);
      ToSetAppend(h[..n][i + 1..], k);
    }
  }

  /** Membership, exactly: fewer than max other keys touched since the key's last touch. */
  lemma HeldInTable(h: seq<Key>, i: nat, max: nat)
    requires i < |h| && h[i] !in h[i + 1..]
    ensures h[i] in Run(h, max).locks <==> |OthersSince(h, i)| < max
  {
    TableIsMostRecent(h, max);
    RecentMembers(h);
    var a := RecencyTail(h, i);
    var r := Recent(h);
    DistinctCardinality(r[a + 1..]);
    assert OthersSince(h, i) == ToSet(r[a + 1..]);
  }

  lemma RunStep(h: seq<Key>, p: nat, max: nat)
    requires p < |h|
    ensures Run(h[..p + 1], max) == Touch(Run(h[..p], max), h[p], max)
  {
    assert h[..p + 1][..p] == h[..p];
  }

  /** A key that stays in the table keeps the lock its last touch handed out. */
  lemma {:induction false} KeepsLock(h: seq<Key>, i: nat, m: nat, max: nat)
    requires i < m <= |h| && h[i] !in h[i + 1..m]
    requires h[i] in Run(h[..m], max).locks
    ensures Run(h[..m], max).locks[h[i]] == LockAt(h, i, max)
  {
    var p := m - 1;
    RunStep(h, p, max);
    TouchKeepsLocks(Run(h[..p], max), h[p], max);
    if i < p {
      assert h[i + 1..m] == h[i + 1..p] + [h[p]];
      KeepsLock(h, i, p, max);
    }
  }

  /** A touch leaves every lock that stays as it was, but for the key it touches. */
  lemma TouchKeepsLocks(t: Table, key: Key, max: nat)
    ensures forall k :: k in Touch(t, key, max).locks ==>
              if k == key then Touch(t, key, max).locks[k] == LockGiven(t, key)
              else k in t.locks && Touch(t, key, max).locks[k] == t.locks[k]
  {
    TrimKeeps(Table(t.order + [key], t.locks[key := t.touches], t.touches + 1), max);
  }

  lemma {:induction false} TrimKeeps(t: Table, max: nat)
    ensures Trim(t, max).locks.Keys <= t.locks.Keys
    ensures forall k :: k in Trim(t, max).locks ==> Trim(t, max).locks[k] == t.locks[k]
    decreases |t.order|
  {
    if |t.order| > max {
      TrimKeeps(Table(t.order[1..], t.locks - {t.order[0]}, t.touches), max);
    }
  }

  /** A lock is named after a touch of its own key, no later than the touch that got it. */
  lemma {:induction false} LockNames(h: seq<Key>, max: nat)
    ensures forall k :: k in Run(h, max).locks ==>
              Run(h, max).locks[k] < |h| && h[Run(h, max).locks[k]] == k
  {
    if h != [] {
      var n := |h| - 1;
      LockNames(h[..n], max);
      TableIsMostRecent(h[..n], max);
      TouchKeepsLocks(Run(h[..n], max), h[n], max);
    }
  }

  lemma LockIsForKey(h: seq<Key>, i: nat, max: nat)
    requires i < |h|
    ensures LockAt(h, i, max) <= i && h[LockAt(h, i, max)] == h[i]
  {
    LockNames(h[..i], max);
    TableIsMostRecent(h[..i], max);
  }

  /**
   The exact eviction condition: two successive touches of one key get the same lock object
   iff fewer than max other keys were touched in between, whether or not the lock was held.
   */
  lemma SameLockIff(h: seq<Key>, i: nat, j: nat, max: nat)
    requires i < j < |h| && h[i] == h[j] && h[i] !in h[i + 1..j]
    ensures LockAt(h, i, max) == LockAt(h, j, max) <==> |OthersSince(h[..j], i)| < max
  {
    assert h[..j][i + 1..] == h[i + 1..j];
    HeldInTable(h[..j], i, max);
    LockIsForKey(h, i, max);
    TableIsMostRecent(h[..j], max);
    if h[i] in Run(h[..j], max).locks {
      KeepsLock(h, i, j, max);
    }
  }

  /** While fewer than max other keys are touched, every later touch gets the lock of touch i. */
  lemma {:induction false} SameLockWithinWindow(h: seq<Key>, i: nat, j: nat, max: nat)
    requires i < j < |h| && h[i] == h[j]
    requires |OthersSince(h[..j], i)| < max
    ensures LockAt(h, j, max) == LockAt(h, i, max)
    decreases j
  {
    var p := LastTouch(h, i, j);
    FewerOthers(h, i, p, j);
    SameLockIff(h, p, j, max);
    if i < p {
      SameLockWithinWindow(h, i, p, max);
    }
  }

  /** A key that is not in the table gets a new lock, named after this very touch. */
  lemma EvictedGetsNew(h: seq<Key>, p: nat, j: nat, max: nat)
    requires p < j < |h| && h[p] == h[j] && h[p] !in h[p + 1..j]
    requires |OthersSince(h[..j], p)| >= max
    ensures LockAt(h, j, max) == j
  {
    assert h[..j][p + 1..] == h[p + 1..j];
    HeldInTable(h[..j], p, max);
    TableIsMostRecent(h[..j], max);
  }

  /** p and q are successive touches of one key between i and j, with at least max other keys in between. */
  ghost predicate EvictedBetween(h: seq<Key>, i: nat, j: nat, p: nat, q: nat, max: nat) {
    && i <= p < q <= j < |h|
    && h[p] == h[q] == h[i] && (forall k :: p < k < q ==> h[k] != h[p])
    && |OthersSince(h[..q], p)| >= max
  }

  /**
   The exact condition for any two touches of a key: they get the same lock object iff no two
   successive touches of it in between saw max other keys.
   */
  lemma {:induction false} SameLockChain(h: seq<Key>, i: nat, j: nat, max: nat)
    requires i < j < |h| && h[i] == h[j]
    ensures LockAt(h, i, max) == LockAt(h, j, max) <==> forall p: nat, q: nat :: !EvictedBetween(h, i, j, p, q, max)
    decreases j
  {
    var p := LastTouch(h, i, j);
    NotTouched(h, p, j);
    LockIsForKey(h, i, max);
    if |OthersSince(h[..j], p)| >= max {
      EvictedGetsNew(h, p, j, max);
      assert EvictedBetween(h, i, j, p, j, max);
    } else {
      SameLockIff(h, p, j, max);
      LastPairOnly(h, i, j, p, max);
      if i < p {
        SameLockChain(h, i, p, max);
      }
    }
  }

  /** Past the last touch before j there is only the pair of that touch and j. */
  lemma LastPairOnly(h: seq<Key>, i: nat, j: nat, p: nat, max: nat)
    requires i <= p < j < |h| && h[i] == h[p] == h[j] && (forall k :: p < k < j ==> h[k] != h[p])
    requires |OthersSince(h[..j], p)| < max
    ensures forall a: nat, b: nat :: EvictedBetween(h, i, j, a, b, max) <==> EvictedBetween(h, i, p, a, b, max)
  {
    forall a: nat, b: nat | EvictedBetween(h, i, j, a, b, max) ensures EvictedBetween(h, i, p, a, b, max) {
      PairEndsBefore(h, p, j, a, b);
    }
    forall a: nat, b: nat | EvictedBetween(h, i, p, a, b, max) ensures EvictedBetween(h, i, j, a, b, max) {
    }
  }

  lemma PairEndsBefore(h: seq<Key>, p: nat, j: nat, a: nat, b: nat)
    requires p < j < |h| && h[p] == h[j] && (forall k :: p < k < j ==> h[k] != h[p])
    requires a < b <= j && h[a] == h[b] == h[p] && (forall k :: a < k < b ==> h[k] != h[a])
    ensures b <= p || (a == p && b == j)
  {
  }

  lemma NotTouched(h: seq<Key>, p: nat, j: nat)
    requires p < j <= |h|
    ensures h[p] !in h[p + 1..j] <==> forall k :: p < k < j ==> h[k] != h[p]
  {
    assert forall k :: p < k < j ==> h[k] == h[p + 1..j][k - p - 1];
  }

  lemma LastTouch(h: seq<Key>, i: nat, j: nat) returns (p: nat)
    requires i < j <= |h|
    ensures i <= p < j && h[p] == h[i] && h[p] !in h[p + 1..j]
  {
    var g := h[..j];
    assert g[i] == h[i];
    p := LastIndex(g, h[i]);
    assert g[p + 1..] == h[p + 1..j];
  }

  /** The later or the shorter the window, the fewer other keys. */
  lemma FewerOthers(h: seq<Key>, i: nat, p: nat, j: nat)
    requires i <= p < j <= |h| && h[i] == h[p]
    ensures |OthersSince(h[..j], p)| <= |OthersSince(h[..j], i)|
    ensures i < p ==> |OthersSince(h[..p], i)| <= |OthersSince(h[..j], i)|
  {
    var g := h[..j];
    assert g[i] == g[p] == h[i];
    OthersOfPart(g, i, p, j);
    assert g[..j] == g;
    if i < p {
      OthersOfPart(g, i, i, p);
      assert h[..p] == g[..p];
    }
  }

  /** Touches after p and before j are among those after i. */
  lemma OthersOfPart(g: seq<Key>, i: nat, p: nat, j: nat)
    requires i <= p < j <= |g| && g[i] == g[p]
    ensures |OthersSince(g[..j], p)| <= |OthersSince(g, i)|
  {
    assert g[..j][p + 1..] == g[p + 1..j];
    assert g[i + 1..] == g[i + 1..|g|];
    SubsetCardinality(OthersSince(g[..j], p), OthersSince(g, i));
  }

  function LastIndex(h: seq<Key>, k: Key): (i: nat)
    requires k in h
    ensures i < |h| && h[i] == k && k !in h[i + 1..]
    ensures forall j :: i < j < |h| ==> h[j] != k
  {
    if h[|h| - 1] == k then |h| - 1
    else
      assert h == h[..|h| - 1] + [h[|h| - 1]];
      var i := LastIndex(h[..|h| - 1], k);
      assert h[i + 1..] == h[..|h| - 1][i + 1..] + [h[|h| - 1]];
      i
  }
}
