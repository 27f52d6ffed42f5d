/** The append-only configuration store (app/services/cms/persistence.py, InMemoryConfigStore). */
module ConfigStore {
  import opened Shared
  import opened CmsTypes
  import opened Sequences

  /** The three dictionaries, all keyed by ConfigKey.identity. */
  datatype Store = Store(
    current: map<string, ConfigRecord>,
    history: map<string, seq<ConfigRecord>>,
    keys: map<string, ConfigKey>)

  const EMPTY_STORE := Store(map[], map[], map[])

  function CurrentOf(s: Store, key: ConfigKey): Option<ConfigRecord> {
    if Identity(key) in s.current then Some(s.current[Identity(key)]) else None
  }

  function HistoryOf(s: Store, key: ConfigKey): seq<ConfigRecord> {
    if Identity(key) in s.history then s.history[Identity(key)] else []
  }

  function NextVersion(history: seq<ConfigRecord>): nat {
    if history == [] then 1 else history[|history| - 1].version + 1
  }

  function Saved(s: Store, key: ConfigKey, value: Value): ConfigRecord {
    ConfigRecord(key, NextVersion(HistoryOf(s, key)), value)
  }

  function Save(s: Store, key: ConfigKey, value: Value): Store {
    var id, record := Identity(key), Saved(s, key, value);
    Store(s.current[id := record], s.history[id := HistoryOf(s, key) + [record]], s.keys[id := key])
  }

  function Remove(s: Store, key: ConfigKey): Store {
    s.(current := s.current - {Identity(key)})
  }

  /** The first entry carrying a version number. */
  function FindVersion(history: seq<ConfigRecord>, version: int): Option<ConfigRecord> {
    if history == [] then None
    else if history[0].version == version then Some(history[0])
    else FindVersion(history[1..], version)
  }

  // ----- the store invariant -----

  /** Versions 1, 2, 3, ... of one key. */
  ghost predicate Numbered(history: seq<ConfigRecord>, key: ConfigKey) {
    forall i :: 0 <= i < |history| ==> history[i].key == key && history[i].version == i + 1
  }

  /** What the three dictionaries hold under one id belongs together. */
  ghost predicate ValidAt(s: Store, id: string) {
    && (id in s.current ==> id in s.history)
    && (id in s.history <==> id in s.keys)
    && (id in s.keys ==> Identity(s.keys[id]) == id && s.history[id] != [] && Numbered(s.history[id], s.keys[id]))
    && (id in s.current ==> s.current[id] == s.history[id][|s.history[id]| - 1])
  }

  ghost predicate Valid(s: Store) {
    forall id :: ValidAt(s, id)
  }

  lemma SavedIsNumbered(s: Store, key: ConfigKey, value: Value)
    requires ValidAt(s, Identity(key))
    ensures Numbered(HistoryOf(s, key) + [Saved(s, key, value)], key)
  {
    var id := Identity(key);
    if id in s.keys {
      IdentityIsInjective(s.keys[id], key);
    }
  }

  lemma SaveKeepsValid(s: Store, key: ConfigKey, value: Value)
    requires Valid(s)
    ensures Valid(Save(s, key, value))
  {
    var s' := Save(s, key, value);
    assert ValidAt(s, Identity(key));
    SavedIsNumbered(s, key, value);
    forall id ensures ValidAt(s', id) {
      assert ValidAt(s, id);
    }
  }

  lemma RemoveKeepsValid(s: Store, key: ConfigKey)
    requires Valid(s)
    ensures Valid(Remove(s, key))
  {
    forall id ensures ValidAt(Remove(s, key), id) {
      assert ValidAt(s, id);
    }
  }

  /** Saving one key is invisible through every other key, whatever characters the names hold. */
  lemma SaveTouchesOneKey(s: Store, key: ConfigKey, value: Value, other: ConfigKey)
    ensures CurrentOf(Save(s, key, value), other) ==
            if other == key then Some(Saved(s, key, value)) else CurrentOf(s, other)
    ensures HistoryOf(Save(s, key, value), other) ==
            if other == key then HistoryOf(s, key) + [Saved(s, key, value)] else HistoryOf(s, other)
  {
    if Identity(other) == Identity(key) {
      IdentityIsInjective(other, key);
    }
  }

  lemma RemoveTouchesOneKey(s: Store, key: ConfigKey, other: ConfigKey)
    ensures CurrentOf(Remove(s, key), other) == if other == key then None else CurrentOf(s, other)
    ensures HistoryOf(Remove(s, key), other) == HistoryOf(s, other)
  {
    if Identity(other) == Identity(key) {
      IdentityIsInjective(other, key);
    }
  }

  /** The key a stored history belongs to. */
  lemma HistoryIsNumbered(s: Store, key: ConfigKey)
    requires Valid(s)
    ensures Numbered(HistoryOf(s, key), key)
    ensures CurrentOf(s, key).Some? ==>
              HistoryOf(s, key) != [] && CurrentOf(s, key).value == HistoryOf(s, key)[|HistoryOf(s, key)| - 1]
  {
    assert ValidAt(s, Identity(key));
    if Identity(key) in s.keys {
      IdentityIsInjective(s.keys[Identity(key)], key);
    }
  }

  /** In a numbered history version v is found exactly when 1 <= v <= length, at place v - 1. */
  lemma {:induction false} FindVersionFrom(history: seq<ConfigRecord>, first: nat, version: int)
    requires forall i :: 0 <= i < |history| ==> history[i].version == first + i
    ensures FindVersion(history, version) ==
            if first <= version < first + |history| then Some(history[version - first]) else None
  {
    if history != [] {
      FindVersionFrom(history[1..], first + 1, version);
    }
  }

  predicate Listed(s: Store, key: ConfigKey, kind: Option<ConfigKind>) {
    CurrentOf(s, key).Some? && (kind.Some? ==> key.kind == kind.value)
  }

  lemma OnlyKeyOf(s: Store, id: string)
    requires ValidAt(s, id) && id in s.keys
    ensures forall k :: Identity(k) == id <==> k == s.keys[id]
  {
    forall k | Identity(k) == id ensures k == s.keys[id] {
      IdentityIsInjective(k, s.keys[id]);
    }
  }

  class InMemoryConfigStore {
    var current: map<string, ConfigRecord>
    var history: map<string, seq<ConfigRecord>>
    var keys: map<string, ConfigKey>

    ghost function View(): Store
      reads this
    {
      Store(current, history, keys)
    }

    constructor ()
      ensures View() == EMPTY_STORE
    {
      current, history, keys := map[], map[], map[];
    }

    method GetCurrent(key: ConfigKey) returns (record: Option<ConfigRecord>)
      ensures record == CurrentOf(View(), key)
    {
      var id := Identity(key);
      record := if id in current then Some(current[id]) else None;
    }

    method SaveNewVersion(key: ConfigKey, value: Value) returns (record: ConfigRecord)
      modifies this
      ensures View() == Save(old(View()), key, value)
      ensures record == Saved(old(View()), key, value)
    {
      var id := Identity(key);
      var versions := if id in history then history[id] else [];
      var version := if versions != [] then versions[|versions| - 1].version + 1 else 1;
      record := ConfigRecord(key, version, value);
      current := current[id := record];
      keys := keys[id := key];
      history := history[id := versions + [record]];
    }

    method GetVersion(key: ConfigKey, version: int) returns (record: Option<ConfigRecord>)
      ensures record == FindVersion(HistoryOf(View(), key), version)
    {
      var id := Identity(key);
      var versions := if id in history then history[id] else [];
      for i := 0 to |versions|
        invariant FindVersion(versions, version) == FindVersion(versions[i..], version)
      {
        if versions[i].version == version {
          return Some(versions[i]);
        }
      }
      return None;
    }

    method DeleteCurrent(key: ConfigKey) returns (existed: bool)
      modifies this
      ensures View() == Remove(old(View()), key)
      ensures existed == CurrentOf(old(View()), key).Some?
    {
      existed := Identity(key) in current;
      current := current - {Identity(key)};
    }

    /** Every key that has a current record, once; in a dictionary order that is left open. */
    method ListKeys(kind: Option<ConfigKind>) returns (found: seq<ConfigKey>)
      requires Valid(View())
      ensures Distinct(found)
      ensures forall k :: k in found <==> Listed(View(), k, kind)
    {
      found := [];
      var todo := current.Keys;
      while todo != {}
        invariant todo <= current.Keys
        invariant Distinct(found)
        invariant forall k :: k in found <==> Listed(View(), k, kind) && Identity(k) !in todo
        decreases todo
      {
        var id :| id in todo;
        assert ValidAt(View(), id);
        todo := todo - {id};
        OnlyKeyOf(View(), id);
        if kind.None? || keys[id].kind == kind.value {
          found := found + [keys[id]];
        }
      }
    }
  }
}
