/**
 Whole runs of the configuration service, against a reference with no ids, no version
 numbers and no cache: per key, the values ever written and whether one is current.
 */
module CmsHistory {
  import opened Shared
  import opened CmsTypes
  import opened ConfigStore
  import opened CmsService

  datatype Op =
    | UpsertOp(key: ConfigKey, value: Value)
    | GetOp(key: ConfigKey, useCache: bool, now: real)
    | RollbackOp(key: ConfigKey, version: int)
    | DeleteOp(key: ConfigKey)
    | RefreshOp

  function Step(c: Cms, op: Op, valid: Validator, ttl: real): Cms {
    match op
    case UpsertOp(key, value) => Upsert(c, key, value, valid)
    case GetOp(key, useCache, now) => AfterGet(c, key, useCache, now, ttl)
    case RollbackOp(key, version) => Rollback(c, key, version)
    case DeleteOp(key) => Delete(c, key)
    case RefreshOp => c.(entries := map[])
  }

  function Run(ops: seq<Op>, valid: Validator, ttl: real): Cms {
    if ops == [] then EMPTY_CMS
    else Step(Run(ops[..|ops| - 1], valid, ttl), ops[|ops| - 1], valid, ttl)
  }

  // ----- the reference -----

  datatype Catalog = Catalog(written: map<ConfigKey, seq<Value>>, live: set<ConfigKey>)

  function Written(k: Catalog, key: ConfigKey): seq<Value> {
    if key in k.written then k.written[key] else []
  }

  function Append(k: Catalog, key: ConfigKey, value: Value): Catalog {
    Catalog(k.written[key := Written(k, key) + [value]], k.live + {key})
  }

  function RefStep(k: Catalog, op: Op, valid: Validator): Catalog {
    match op
    case UpsertOp(key, value) => if valid(key.kind, value) then Append(k, key, value) else k
    case RollbackOp(key, version) =>
      if 1 <= version <= |Written(k, key)| then Append(k, key, Written(k, key)[version - 1]) else k
    case DeleteOp(key) => k.(live := k.live - {key})
    case _ => k
  }

  function RefRun(ops: seq<Op>, valid: Validator): Catalog {
    if ops == [] then Catalog(map[], {})
    else RefStep(RefRun(ops[..|ops| - 1], valid), ops[|ops| - 1], valid)
  }

  /** Version n of a key is its n-th write. */
  function Versions(k: Catalog, key: ConfigKey): seq<ConfigRecord> {
    seq(|Written(k, key)|, i requires 0 <= i < |Written(k, key)| => ConfigRecord(key, i + 1, Written(k, key)[i]))
  }

  /** The last write, unless it was deleted since. */
  function RefCurrent(k: Catalog, key: ConfigKey): Option<ConfigRecord> {
    var n := |Written(k, key)|;
    if key in k.live && n > 0 then Some(ConfigRecord(key, n, Written(k, key)[n - 1])) else None
  }

  ghost predicate SameAt(s: Store, k: Catalog, key: ConfigKey) {
    HistoryOf(s, key) == Versions(k, key) && CurrentOf(s, key) == RefCurrent(k, key)
  }

  ghost predicate Refines(c: Cms, k: Catalog) {
    && Agrees(c) && Valid(c.store)
    && forall key :: SameAt(c.store, k, key)
  }

  lemma SaveRefines(c: Cms, k: Catalog, key: ConfigKey, value: Value)
    requires Refines(c, k)
    ensures Refines(SaveAndEvict(c, key, value), Append(k, key, value))
  {
    SaveKeepsValid(c.store, key, value);
    forall other ensures SameAt(Save(c.store, key, value), Append(k, key, value), other) {
      assert SameAt(c.store, k, other);
      SaveTouchesOneKey(c.store, key, value, other);
      if other == key {
        AppendedVersions(k, key, value);
      }
    }
  }

  lemma AppendedVersions(k: Catalog, key: ConfigKey, value: Value)
    ensures Versions(Append(k, key, value), key) ==
            Versions(k, key) + [ConfigRecord(key, |Written(k, key)| + 1, value)]
    ensures NextVersion(Versions(k, key)) == |Written(k, key)| + 1
  {
  }

  /** A lookup by version number finds the write of that number. */
  lemma VersionIsWrite(c: Cms, k: Catalog, key: ConfigKey, version: int)
    requires Refines(c, k)
    ensures FindVersion(HistoryOf(c.store, key), version) ==
            if 1 <= version <= |Written(k, key)| then Some(ConfigRecord(key, version, Written(k, key)[version - 1]))
            else None
  {
    assert SameAt(c.store, k, key);
    FindVersionFrom(HistoryOf(c.store, key), 1, version);
  }

  lemma DeleteRefines(c: Cms, k: Catalog, key: ConfigKey)
    requires Refines(c, k)
    ensures Refines(Delete(c, key), k.(live := k.live - {key}))
  {
    RemoveKeepsValid(c.store, key);
    forall other ensures SameAt(Remove(c.store, key), k.(live := k.live - {key}), other) {
      assert SameAt(c.store, k, other);
      RemoveTouchesOneKey(c.store, key, other);
    }
  }

  lemma RollbackRefines(c: Cms, k: Catalog, key: ConfigKey, version: int)
    requires Refines(c, k)
    ensures Refines(Rollback(c, key, version), if 1 <= version <= |Written(k, key)| then
                                                 Append(k, key, Written(k, key)[version - 1]) else k)
  {
    VersionIsWrite(c, k, key, version);
    if 1 <= version <= |Written(k, key)| {
      SaveRefines(c, k, key, Written(k, key)[version - 1]);
    }
  }

  lemma StepRefines(c: Cms, k: Catalog, op: Op, valid: Validator, ttl: real)
    requires Refines(c, k)
    ensures Refines(Step(c, op, valid, ttl), RefStep(k, op, valid))
  {
    match op
    case UpsertOp(key, value) => SaveRefines(c, k, key, value);
    case GetOp(key, useCache, now) =>
    case RollbackOp(key, version) => RollbackRefines(c, k, key, version);
    case DeleteOp(key) => DeleteRefines(c, k, key);
    case RefreshOp =>
  }

  /**
   After any run of calls the store and cache present exactly the reference: per key the
   versions are 1..n in writing order, and the current record is the last one unless deleted.
   */
  lemma {:induction false} RunRefines(ops: seq<Op>, valid: Validator, ttl: real)
    ensures Refines(Run(ops, valid, ttl), RefRun(ops, valid))
  {
    if ops != [] {
      var n := |ops| - 1;
      RunRefines(ops[..n], valid, ttl);
      StepRefines(Run(ops[..n], valid, ttl), RefRun(ops[..n], valid), ops[n], valid, ttl);
    }
  }

  /** A cached read, an uncached read and the reference always agree, on every key and any clock. */
  lemma ReadsAgree(ops: seq<Op>, valid: Validator, ttl: real, key: ConfigKey, useCache: bool, now: real)
    ensures Answer(Run(ops, valid, ttl), key, useCache, now) == RefCurrent(RefRun(ops, valid), key)
  {
    RunRefines(ops, valid, ttl);
    var c := Run(ops, valid, ttl);
    assert SameAt(c.store, RefRun(ops, valid), key);
    CachedAnswerIsCurrent(c, key, useCache, now);
  }

  /** Written versions never change, and numbering goes on across delete and re-create. */
  lemma {:induction false} HistoryOnlyGrows(ops: seq<Op>, m: nat, valid: Validator, ttl: real, key: ConfigKey)
    requires m <= |ops|
    ensures HistoryOf(Run(ops[..m], valid, ttl).store, key) <= HistoryOf(Run(ops, valid, ttl).store, key)
  {
    var n := |ops| - 1;
    if m == |ops| {
      assert ops[..m] == ops;
    } else {
      assert ops[..n][..m] == ops[..m];
      HistoryOnlyGrows(ops[..n], m, valid, ttl, key);
      StepGrowsHistory(Run(ops[..n], valid, ttl), ops[n], valid, ttl, key);
    }
  }

  lemma StepGrowsHistory(c: Cms, op: Op, valid: Validator, ttl: real, key: ConfigKey)
    ensures HistoryOf(c.store, key) <= HistoryOf(Step(c, op, valid, ttl).store, key)
  {
    match op
    case UpsertOp(k, value) => SaveTouchesOneKey(c.store, k, value, key);
    case RollbackOp(k, version) =>
      var target := FindVersion(HistoryOf(c.store, k), version);
      if target.Some? {
        SaveTouchesOneKey(c.store, k, target.value.value, key);
      }
    case DeleteOp(k) => RemoveTouchesOneKey(c.store, k, key);
    case _ =>
  }

  /**
   Rolling back to version v appends version n + 1 carrying v's value and makes it current,
   whether or not the key was deleted; for any other v it changes nothing.
   */
  lemma RollbackRestores(ops: seq<Op>, valid: Validator, ttl: real, key: ConfigKey, version: int)
    ensures var c := Run(ops, valid, ttl);
            var c' := Rollback(c, key, version);
            var history := HistoryOf(c.store, key);
            if 1 <= version <= |history| then
              var record := ConfigRecord(key, |history| + 1, history[version - 1].value);
              HistoryOf(c'.store, key) == history + [record] && CurrentOf(c'.store, key) == Some(record)
            else c' == c
  {
    var c := Run(ops, valid, ttl);
    RunRefines(ops, valid, ttl);
    HistoryIsNumbered(c.store, key);
    FindVersionFrom(HistoryOf(c.store, key), 1, version);
    if 1 <= version <= |HistoryOf(c.store, key)| {
      SaveTouchesOneKey(c.store, key, HistoryOf(c.store, key)[version - 1].value, key);
    }
  }

  /** Reads only, one after the other. */
  datatype Read = Read(key: ConfigKey, useCache: bool, now: real)

  function AfterReads(c: Cms, gets: seq<Read>, ttl: real): Cms
    decreases |gets|
  {
    if gets == [] then c
    else AfterReads(AfterGet(c, gets[0].key, gets[0].useCache, gets[0].now, ttl), gets[1..], ttl)
  }

  lemma {:induction false} ReadsKeepAgreement(c: Cms, gets: seq<Read>, ttl: real)
    requires Agrees(c)
    ensures Agrees(AfterReads(c, gets, ttl)) && AfterReads(c, gets, ttl).store == c.store
    decreases |gets|
  {
    if gets != [] {
      ReadsKeepAgreement(AfterGet(c, gets[0].key, gets[0].useCache, gets[0].now, ttl), gets[1..], ttl);
    }
  }

  /** Whatever the cache held, also wrongly: after a refresh every read answers what the store holds. */
  lemma RefreshReloads(c: Cms, gets: seq<Read>, valid: Validator, ttl: real, key: ConfigKey, useCache: bool, now: real)
    ensures Answer(AfterReads(Step(c, RefreshOp, valid, ttl), gets, ttl), key, useCache, now) == CurrentOf(c.store, key)
  {
    var refreshed := Step(c, RefreshOp, valid, ttl);
    ReadsKeepAgreement(refreshed, gets, ttl);
    CachedAnswerIsCurrent(AfterReads(refreshed, gets, ttl), key, useCache, now);
  }

  /** Every value that is ever stored passed validation, rolled-back ones included. */
  lemma {:induction false} StoredValuesAreValid(ops: seq<Op>, valid: Validator, key: ConfigKey)
    ensures forall value :: value in Written(RefRun(ops, valid), key) ==> valid(key.kind, value)
  {
    if ops != [] {
      StoredValuesAreValid(ops[..|ops| - 1], valid, key);
    }
  }
}
